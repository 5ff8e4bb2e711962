/** The pagination component's custom prop validators `isValidPage`,
    `isValidShowPages` and `isValidTotalPages`. Each is called with the
    props, the name of the prop to check and the component's name, and gives
    `null` or an error. Errors are kept as their kind, the prop name and the
    component name: the message templates are not part of this model. */
module Pagination {
  import opened Js

  /** A prop value as the validators distinguish it. */
  datatype PropValue = Undefined | Num(n: int) | NonNumber

  datatype ErrorKind = NotNumber | Negative | OutOfRange

  datatype PropError = PropError(kind: ErrorKind, propName: string, componentName: string)

  /** The props object; a missing key reads as `undefined`. */
  type Props = map<string, PropValue>

  const TotalPagesKey: string := "totalPages"

  function Lookup(props: Props, key: string): PropValue
  {
    if key in props then props[key] else Undefined
  }

  /** The type and sign checks every validator makes, in this order: a
      missing value passes, a non-number fails, a negative number fails. */
  function CheckNumber(props: Props, propName: string, componentName: string): (r: Option<PropError>)
    ensures r.None? <==> Lookup(props, propName).Undefined? || (Lookup(props, propName).Num? && Lookup(props, propName).n >= 0)
    ensures r.Some? ==> r.value.propName == propName && r.value.componentName == componentName
    ensures r.Some? ==> (r.value.kind == NotNumber <==> Lookup(props, propName).NonNumber?)
  {
    match Lookup(props, propName)
    case Undefined => None
    case NonNumber => Some(PropError(NotNumber, propName, componentName))
    case Num(n) => if n < 0 then Some(PropError(Negative, propName, componentName)) else None
  }

  /** The validator of a prop bounded by `totalPages`: after the number
      checks, a value above a numeric `totalPages` is out of range. */
  function CheckBounded(props: Props, propName: string, componentName: string): (r: Option<PropError>)
    ensures r.None? <==>
      match Lookup(props, propName)
      case Undefined => true
      case NonNumber => false
      case Num(n) => 0 <= n && !(Lookup(props, TotalPagesKey).Num? && n > Lookup(props, TotalPagesKey).n)
    ensures r.Some? ==> r.value.propName == propName && r.value.componentName == componentName
    ensures r.Some? ==> (r.value.kind == NotNumber <==> Lookup(props, propName).NonNumber?)
    ensures r.Some? && r.value.kind == OutOfRange ==>
      Lookup(props, propName).Num? && Lookup(props, TotalPagesKey).Num?
      && Lookup(props, propName).n > Lookup(props, TotalPagesKey).n
  {
    var numberError := CheckNumber(props, propName, componentName);
    if numberError.Some? then numberError
    else match (Lookup(props, propName), Lookup(props, TotalPagesKey))
      case (Num(n), Num(total)) =>
        if n > total then Some(PropError(OutOfRange, propName, componentName)) else None
      case _ => None
  }

  /** `isValidPage`. */
  function IsValidPage(props: Props, propName: string, componentName: string): (r: Option<PropError>)
    ensures r.None? <==>
      match Lookup(props, propName)
      case Undefined => true
      case NonNumber => false
      case Num(n) => 0 <= n && !(Lookup(props, TotalPagesKey).Num? && n > Lookup(props, TotalPagesKey).n)
    ensures r.Some? ==> r.value.propName == propName && r.value.componentName == componentName
    ensures r.Some? ==> (r.value.kind == NotNumber <==> Lookup(props, propName).NonNumber?)
    ensures r.Some? && r.value.kind == OutOfRange ==>
      Lookup(props, propName).Num? && Lookup(props, TotalPagesKey).Num?
      && Lookup(props, propName).n > Lookup(props, TotalPagesKey).n
  {
    CheckBounded(props, propName, componentName)
  }

  /** `isValidShowPages`: the same rules as the page. */
  function IsValidShowPages(props: Props, propName: string, componentName: string): (r: Option<PropError>)
    ensures r.None? <==>
      match Lookup(props, propName)
      case Undefined => true
      case NonNumber => false
      case Num(n) => 0 <= n && !(Lookup(props, TotalPagesKey).Num? && n > Lookup(props, TotalPagesKey).n)
    ensures r.Some? ==> r.value.propName == propName && r.value.componentName == componentName
    ensures r.Some? ==> (r.value.kind == NotNumber <==> Lookup(props, propName).NonNumber?)
    ensures r.Some? && r.value.kind == OutOfRange ==>
      Lookup(props, propName).Num? && Lookup(props, TotalPagesKey).Num?
      && Lookup(props, propName).n > Lookup(props, TotalPagesKey).n
  {
    CheckBounded(props, propName, componentName)
  }

  /** `isValidTotalPages`: only the number checks; nothing bounds the total. */
  function IsValidTotalPages(props: Props, propName: string, componentName: string): (r: Option<PropError>)
    ensures r.Some? ==> r.value.kind != OutOfRange
    ensures r.None? <==> Lookup(props, propName).Undefined? || (Lookup(props, propName).Num? && Lookup(props, propName).n >= 0)
    ensures r.Some? ==> r.value.propName == propName && r.value.componentName == componentName
    ensures r.Some? ==> (r.value.kind == NotNumber <==> Lookup(props, propName).NonNumber?)
  {
    CheckNumber(props, propName, componentName)
  }

  /** Validation stops at the first failing check: a non-number is never
      reported as negative or out of range, a negative number never as out
      of range. */
  lemma FirstFailureWins(props: Props, propName: string, componentName: string)
    ensures Lookup(props, propName).NonNumber? ==>
      CheckBounded(props, propName, componentName) == Some(PropError(NotNumber, propName, componentName))
    ensures Lookup(props, propName).Num? && Lookup(props, propName).n < 0 ==>
      CheckBounded(props, propName, componentName) == Some(PropError(Negative, propName, componentName))
  {
  }

  /** The cases the validators' test suite asserts, for any component name. */
  lemma UndefinedIsValid(c: string)
    ensures IsValidPage(map["page" := Undefined], "page", c).None?
    ensures IsValidShowPages(map["showPages" := Undefined], "showPages", c).None?
    ensures IsValidTotalPages(map["totalPages" := Undefined], "totalPages", c).None?
  {
  }

  lemma NonNumberIsNumberError(c: string)
    ensures IsValidPage(map["page" := NonNumber], "page", c) == Some(PropError(NotNumber, "page", c))
    ensures IsValidShowPages(map["showPages" := NonNumber], "showPages", c) == Some(PropError(NotNumber, "showPages", c))
    ensures IsValidTotalPages(map["totalPages" := NonNumber], "totalPages", c) == Some(PropError(NotNumber, "totalPages", c))
  {
  }

  lemma MinusOneIsPositiveError(c: string)
    ensures IsValidPage(map["page" := Num(-1)], "page", c) == Some(PropError(Negative, "page", c))
    ensures IsValidShowPages(map["showPages" := Num(-1)], "showPages", c) == Some(PropError(Negative, "showPages", c))
    ensures IsValidTotalPages(map["totalPages" := Num(-1)], "totalPages", c) == Some(PropError(Negative, "totalPages", c))
  {
  }

  lemma TenOfTwoIsRangeError(c: string)
    ensures IsValidPage(map["page" := Num(10), "totalPages" := Num(2)], "page", c)
      == Some(PropError(OutOfRange, "page", c))
    ensures IsValidShowPages(map["showPages" := Num(10), "totalPages" := Num(2)], "showPages", c)
      == Some(PropError(OutOfRange, "showPages", c))
  {
  }

  lemma OneOfTwoIsValid(c: string)
    ensures IsValidPage(map["page" := Num(1), "totalPages" := Num(2)], "page", c).None?
    ensures IsValidShowPages(map["showPages" := Num(1), "totalPages" := Num(2)], "showPages", c).None?
  {
  }

  lemma TotalPagesOneIsValid(c: string)
    ensures IsValidTotalPages(map["totalPages" := Num(1)], "totalPages", c).None?
  {
  }
}
