/** JSON values as `json.loads` yields them, and how the planning code reads them. */
module Json {
  import opened Text
  import opened Wrappers

  /** A number is an integer, a finite float, or one of the infinities and NaN. */
  datatype Json =
    | Null | Bool(b: bool) | Int(i: int) | Real(r: real) | NonFinite
    | Str(s: string) | Arr(items: seq<Json>) | Obj(fields: map<string, Json>)

  type Fields = map<string, Json>

  /** A missing key reads like a null. */
  function Get(fields: Fields, key: string): Json {
    if key in fields then fields[key] else Null
  }

  /** A cost as a non-negative integer; a missing cost is zero. */
  function NormalizeCost(v: Json): (cost: Option<nat>) {
    match v
    case Null => Some(0)
    case Int(i) => if i >= 0 then Some(i) else None
    case Real(r) => if r >= 0.0 && r == r.Floor as real then Some(r.Floor) else None
    case Str(s) => if IsDigits(s) then Some(ParseDigits(s)) else None
    case _ => None
  }

  /** What is read as a cost, and what is not: negative and fractional numbers, truth values and other text are refused. */
  lemma CostExactly(v: Json, n: nat)
    ensures NormalizeCost(v) == Some(n) <==>
              || (v == Null && n == 0) || v == Int(n) || v == Real(n as real)
              || (v.Str? && v.s != "" && (forall i | 0 <= i < |v.s| :: '0' <= v.s[i] <= '9') && ParseDigits(v.s) == n)
  {
  }

  /** Every way to write a non-negative integer costs the same, and nothing else but a missing cost is accepted. */
  lemma CostNotations(n: nat)
    ensures NormalizeCost(Int(n)) == NormalizeCost(Real(n as real)) == NormalizeCost(Str(Decimal(n))) == Some(n)
  {
    ParseDecimal(n);
    assert (n as real).Floor == n;
  }
}
