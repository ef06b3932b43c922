/** Filter conditions: what the filter parser emits and the server takes. */
module FilterTypes {
  import opened Outcomes

  const MAX_CONDITIONS := 10
  const MAX_TEXT_BYTES := 1024
  const MAX_WIRE_BYTES := 8192

  datatype Op = Eq | Ne | Gt | Lt | Ge | Le | Like | ILike | IsNull | IsNotNull {
    predicate TakesValue() {
      !IsNull? && !IsNotNull?
    }

    predicate IsSymbol() {
      Eq? || Ne? || Gt? || Lt? || Ge? || Le?
    }

    /** How the operator is written on the wire and in SQL. */
    function Text(): string {
      match this
      case Eq => "="
      case Ne => "!="
      case Gt => ">"
      case Lt => "<"
      case Ge => ">="
      case Le => "<="
      case Like => "LIKE"
      case ILike => "ILIKE"
      case IsNull => "IS NULL"
      case IsNotNull => "IS NOT NULL"
    }
  }

  datatype Logic = And | Or {
    function Text(): string {
      if And? then "AND" else "OR"
    }
  }

  datatype Condition = Condition(
    logic: Option<Logic>, not: bool, column: string, join: Option<nat>, op: Op, value: Option<string>)
}
