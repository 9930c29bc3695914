/** String.trim, over the white space and line terminators JavaScript knows, and runs of decimal digits. */
module Text {
  predicate IsDigits(s: string) {
    s != "" && forall i :: 0 <= i < |s| ==> '0' <= s[i] <= '9'
  }

  /** The number a run of digits spells. */
  function DigitsValue(s: string): nat
    requires IsDigits(s)
  {
    var last := (s[|s| - 1] - '0') as nat;
    if |s| == 1 then last else 10 * DigitsValue(s[..|s| - 1]) + last
  }

  predicate IsSpace(c: char) {
    || '\t' <= c <= '\r' || c == ' '
    || c == '\U{A0}' || c == '\U{1680}' || '\U{2000}' <= c <= '\U{200A}'
    || c == '\U{2028}' || c == '\U{2029}' || c == '\U{202F}' || c == '\U{205F}' || c == '\U{3000}' || c == '\U{FEFF}'
  }

  function TrimStart(s: string): string {
    if s != "" && IsSpace(s[0]) then TrimStart(s[1..]) else s
  }

  function TrimEnd(s: string): string {
    if s != "" && IsSpace(s[|s| - 1]) then TrimEnd(s[..|s| - 1]) else s
  }

  function Trim(s: string): string {
    TrimEnd(TrimStart(s))
  }

  lemma {:induction false} TrimStartTrims(s: string)
    ensures TrimStart(s) == "" || !IsSpace(TrimStart(s)[0])
    ensures |TrimStart(s)| <= |s|
  {
    if s != "" && IsSpace(s[0]) { TrimStartTrims(s[1..]); }
  }

  lemma {:induction false} TrimEndTrims(s: string)
    ensures TrimEnd(s) <= s
    ensures TrimEnd(s) == "" || !IsSpace(TrimEnd(s)[|TrimEnd(s)| - 1])
  {
    if s != "" && IsSpace(s[|s| - 1]) { TrimEndTrims(s[..|s| - 1]); }
  }

  lemma TrimTwice(s: string)
    ensures Trim(Trim(s)) == Trim(s)
    ensures |Trim(s)| <= |s|
  {
    TrimStartTrims(s);
    TrimEndTrims(TrimStart(s));
  }

  lemma {:induction false} TrimStartDrops(s: string)
    ensures |TrimStart(s)| <= |s| && TrimStart(s) == s[|s| - |TrimStart(s)|..]
    ensures forall i :: 0 <= i < |s| - |TrimStart(s)| ==> IsSpace(s[i])
  {
    if s != "" && IsSpace(s[0]) { TrimStartDrops(s[1..]); }
  }

  lemma {:induction false} TrimEndDrops(s: string)
    ensures |TrimEnd(s)| <= |s| && TrimEnd(s) == s[..|TrimEnd(s)|]
    ensures forall i :: |TrimEnd(s)| <= i < |s| ==> IsSpace(s[i])
  {
    if s != "" && IsSpace(s[|s| - 1]) { TrimEndDrops(s[..|s| - 1]); }
  }

  /** Trimming drops space at both ends, all of it, and nothing else. */
  lemma TrimIs(s: string)
    ensures exists from, to :: 0 <= from <= to <= |s| && Trim(s) == s[from..to]
                               && (forall i :: 0 <= i < from || to <= i < |s| ==> IsSpace(s[i]))
    ensures Trim(s) != "" ==> !IsSpace(Trim(s)[0]) && !IsSpace(Trim(s)[|Trim(s)| - 1])
  {
    TrimStartDrops(s);
    TrimEndDrops(TrimStart(s));
    TrimStartTrims(s);
    TrimEndTrims(TrimStart(s));
    var from := |s| - |TrimStart(s)|;
    var to := from + |Trim(s)|;
    assert Trim(s) == s[from..to];
    forall i | to <= i < |s| ensures IsSpace(s[i]) {
      assert TrimStart(s)[i - from] == s[i];
    }
  }
}
