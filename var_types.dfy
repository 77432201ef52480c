/**
 * The four variable types, the cached `Variable` record, and the text labels
 * that name a type on the wire (`varTypeToString` / `stringToVarType`).
 */
module VarTypes {
  import opened ArduinoText

  /** `VarType`: exactly four members, in the order the enum declares them. */
  datatype VarType = IntType | FloatType | StringType | BooleanType

  /** One cached variable; its value is always kept as text. */
  datatype Variable = Variable(name: string, vtype: VarType, value: string)

  /** `varTypeToString`: the label sent with a write. */
  function TypeLabel(t: VarType): (text: string)
    ensures text in {"int", "float", "bool", "string"}
  {
    match t
    case IntType => "int"
    case FloatType => "float"
    case BooleanType => "bool"
    case StringType => "string"
  }

  /**
   * `stringToVarType`: letter case is ignored, "bool" and "boolean" both name
   * the boolean type, and every label not recognised falls back to string.
   */
  function ParseTypeLabel(s: string): (t: VarType)
    ensures t == IntType <==> EqualsIgnoreCase(s, "int")
    ensures t == FloatType <==> EqualsIgnoreCase(s, "float")
    ensures t == BooleanType <==> EqualsIgnoreCase(s, "bool") || EqualsIgnoreCase(s, "boolean")
    ensures t == StringType <==>
      !EqualsIgnoreCase(s, "int") && !EqualsIgnoreCase(s, "float") &&
      !EqualsIgnoreCase(s, "bool") && !EqualsIgnoreCase(s, "boolean")
  {
    if EqualsIgnoreCase(s, "int") then IntType
    else if EqualsIgnoreCase(s, "float") then FloatType
    else if EqualsIgnoreCase(s, "bool") || EqualsIgnoreCase(s, "boolean") then BooleanType
    else StringType
  }

  /** Parsing the label of a type gives back that type. */
  lemma LabelRoundTrip(t: VarType)
    ensures ParseTypeLabel(TypeLabel(t)) == t
  {
  }

  /** Two labels that differ only in letter case parse to the same type. */
  lemma ParseIgnoresCase(s: string, u: string)
    requires EqualsIgnoreCase(s, u)
    ensures ParseTypeLabel(s) == ParseTypeLabel(u)
  {
    forall w: string {:trigger EqualsIgnoreCase(u, w)} ensures EqualsIgnoreCase(s, w) <==> EqualsIgnoreCase(u, w) {
      EqualsIgnoreCaseIsEquivalence(s, u, w);
      EqualsIgnoreCaseIsEquivalence(u, s, w);
    }
  }
}
