/** Vocabulary shared by the models: optional values, HTTP answers, and the text
    normalisation every e-mail and rate-limit identifier goes through. */
module Prelude {
  datatype Option<+T> = None | Some(value: T)

  /** What a handler answers. A rejection rolls the request's transaction back. */
  datatype Answer = Ok | Reject(code: int)

  /** Two tables agree everywhere but at one row. */
  ghost predicate SameBut<K(!new), V>(before: map<K, V>, after: map<K, V>, k: K) {
    forall x :: x != k ==> (x in after <==> x in before) && (x in before ==> after[x] == before[x])
  }

  /** A whole number of paise as near to the amount in rupees as any, and on a tie the one away from
      zero. */
  predicate RoundsTo(amount: real, paise: int) {
    && -0.5 <= amount * 100.0 - paise as real <= 0.5
    && (amount * 100.0 - paise as real == 0.5 ==> amount < 0.0)
    && (amount * 100.0 - paise as real == -0.5 ==> amount > 0.0)
  }

  function Min(a: int, b: int): int {
    if a <= b then a else b
  }

  function LowerChar(c: char): char {
    if 'A' <= c <= 'Z' then c + ('a' - 'A') else c
  }

  function Lower(s: string): (r: string)
    ensures |r| == |s|
    ensures forall i :: 0 <= i < |s| ==> r[i] == LowerChar(s[i])
  {
    seq(|s|, i requires 0 <= i < |s| => LowerChar(s[i]))
  }

  predicate IsSpace(c: char) {
    c == ' ' || c == '\t' || c == '\n' || c == '\r'
  }

  function StripLeft(s: string): (r: string)
    ensures r == [] || !IsSpace(r[0])
    ensures |r| <= |s| && r == s[|s| - |r|..]
  {
    if s != [] && IsSpace(s[0]) then StripLeft(s[1..]) else s
  }

  function StripRight(s: string): (r: string)
    ensures r == [] || !IsSpace(r[|r| - 1])
    ensures r <= s
  {
    if s != [] && IsSpace(s[|s| - 1]) then StripRight(s[..|s| - 1]) else s
  }

  function Strip(s: string): string {
    StripRight(StripLeft(s))
  }

  /** `text.strip().lower()`: the one normalisation applied to e-mails and identifiers. */
  function Clean(s: string): string {
    Lower(Strip(s))
  }

  lemma LowerIdempotent(s: string)
    ensures Lower(Lower(s)) == Lower(s)
  {
  }

  /** Cleaning twice changes nothing, so a stored clean e-mail matches itself again. */
  lemma CleanIdempotent(s: string)
    ensures Clean(Clean(s)) == Clean(s)
    ensures Lower(Clean(s)) == Clean(s)
  {
    var t := Strip(s);
    var c := Lower(t);
    assert t <= StripLeft(s);
    assert t != [] ==> !IsSpace(t[0]) && !IsSpace(t[|t| - 1]);
    assert c != [] ==> !IsSpace(c[0]) && !IsSpace(c[|c| - 1]);
    assert StripLeft(c) == c && StripRight(c) == c;
    LowerIdempotent(t);
  }
}
