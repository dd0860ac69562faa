/** Named configuration overrides and their lookup (`getParameter`). */
module Params {

  datatype Option<+T> = None | Some(value: T)

  /** A JavaScript number as far as `Number.isFinite` can tell: a finite value, or one of
      NaN, +Infinity and -Infinity. */
  datatype JsNumber = Finite(value: real) | NonFinite

  /** A parameter value is a number or a string. A string carries the result `Number(s)`
      gives for it; the parse itself is a library call and is not modelled. */
  datatype ParamValue = Num(number: JsNumber) | Text(text: string, parsed: JsNumber)

  /** `{ name, value }`. */
  datatype Parameter = Parameter(name: string, value: ParamValue)

  /** `typeof v === "number" ? v : Number(v)`. */
  function ToNumber(v: ParamValue): (n: JsNumber)
    ensures v.Num? ==> n == v.number
    ensures v.Text? ==> n == v.parsed
  {
    match v
    case Num(n) => n
    case Text(_, parsed) => parsed
  }

  /** Index `i` holds the first entry of `ps` named `name`. */
  predicate IsFirstNamed(ps: seq<Parameter>, name: string, i: int)
  {
    0 <= i < |ps| && ps[i].name == name && forall j :: 0 <= j < i ==> ps[j].name != name
  }

  /** `Array.prototype.find` by name: the position of the first match, if any. */
  function FindFirst(ps: seq<Parameter>, name: string): (r: Option<nat>)
    ensures r.None? <==> forall i :: 0 <= i < |ps| ==> ps[i].name != name
    ensures r.Some? ==> IsFirstNamed(ps, name, r.value)
  {
    if ps == [] then None
    else if ps[0].name == name then Some(0)
    else match FindFirst(ps[1..], name)
      case None => None
      case Some(i) => Some(i + 1)
  }

  /** `getParameter`: the finite numeric value of the first entry named `name`,
      and `fallback` when the list is absent, no entry has that name, or the value
      of the first such entry is not a finite number. */
  function GetParameter(params: Option<seq<Parameter>>, name: string, fallback: real): (r: real)
    ensures params.None? ==> r == fallback
    ensures params.Some? && (forall i :: 0 <= i < |params.value| ==> params.value[i].name != name) ==>
              r == fallback
    ensures forall i :: params.Some? && IsFirstNamed(params.value, name, i) ==>
              (ToNumber(params.value[i].value).Finite? ==> r == ToNumber(params.value[i].value).value) &&
              (ToNumber(params.value[i].value).NonFinite? ==> r == fallback)
  {
    match params
    case None => fallback
    case Some(ps) =>
      match FindFirst(ps, name)
      case None => fallback
      case Some(i) =>
        match ToNumber(ps[i].value)
        case Finite(v) => v
        case NonFinite => fallback
  }

  /** Entries with other names in front of the list are skipped by the lookup. */
  lemma OtherNamesSkipped(q: Parameter, ps: seq<Parameter>, name: string, fallback: real)
    requires q.name != name
    ensures GetParameter(Some([q] + ps), name, fallback) == GetParameter(Some(ps), name, fallback)
  {
    assert ([q] + ps)[1..] == ps;
  }

  /** Only the first entry with the name counts: anything after it, another entry with the
      same name included, is ignored. */
  lemma LaterEntriesIgnored(ps: seq<Parameter>, qs: seq<Parameter>, name: string, fallback: real)
    requires exists i :: 0 <= i < |ps| && ps[i].name == name
    ensures GetParameter(Some(ps + qs), name, fallback) == GetParameter(Some(ps), name, fallback)
  {
    var i := FindFirst(ps, name).value;
    assert IsFirstNamed(ps + qs, name, i);
  }
}
