/** What the other modules share: an optional value, the few string operations (trimming, lower-casing,
    substring search) that the program applies to keys and names, and facts about lists and products.
    Letters are the ASCII ones; whitespace is the whole Unicode set that trimming removes. */
module Text {

  datatype Option<+T> = None | Some(value: T)
  {
    function GetOr(default: T): T {
      match this
      case Some(v) => v
      case None => default
    }
  }

  ghost predicate NoRepeats<T>(s: seq<T>) {
    forall i, j :: 0 <= i < j < |s| ==> s[i] != s[j]
  }

  lemma InitOfConcat<T>(a: seq<T>, b: seq<T>)
    requires b != []
    ensures (a + b)[..|a + b| - 1] == a + b[..|b| - 1] && (a + b)[|a + b| - 1] == b[|b| - 1]
  {
  }

  lemma TakeOneMore<T>(s: seq<T>, k: nat)
    requires k < |s|
    ensures s[..k + 1] == s[..k] + [s[k]]
  {
  }

  lemma Distribute(a: int, c: int)
    ensures (a + 1) * c == a * c + c
  {
  }

  predicate IsSpace(c: char) {
    c == ' ' || '\t' <= c <= '\r' || '\U{1C}' <= c <= '\U{1F}' || c == '\U{85}' || c == '\U{A0}' ||
    c == '\U{1680}' || '\U{2000}' <= c <= '\U{200A}' || c == '\U{2028}' || c == '\U{2029}' ||
    c == '\U{202F}' || c == '\U{205F}' || c == '\U{3000}'
  }

  function TrimLeft(s: string): string {
    if s != [] && IsSpace(s[0]) then TrimLeft(s[1..]) else s
  }

  function TrimRight(s: string): string {
    if s != [] && IsSpace(s[|s| - 1]) then TrimRight(s[..|s| - 1]) else s
  }

  function Strip(s: string): string {
    TrimRight(TrimLeft(s))
  }

  lemma {:induction false} TrimLeftFacts(s: string)
    ensures TrimLeft(s) == [] || !IsSpace(TrimLeft(s)[0])
  {
    if s != [] && IsSpace(s[0]) {
      TrimLeftFacts(s[1..]);
    }
  }

  lemma {:induction false} TrimRightFacts(s: string)
    ensures TrimRight(s) <= s
    ensures TrimRight(s) == [] || !IsSpace(TrimRight(s)[|TrimRight(s)| - 1])
  {
    if s != [] && IsSpace(s[|s| - 1]) {
      TrimRightFacts(s[..|s| - 1]);
    }
  }

  lemma StrippedEnds(s: string)
    ensures Strip(s) != [] ==> !IsSpace(Strip(s)[0]) && !IsSpace(Strip(s)[|Strip(s)| - 1])
  {
    TrimLeftFacts(s);
    TrimRightFacts(TrimLeft(s));
  }

  lemma {:induction false} TrimLeftTakes(s: string) returns (n: nat)
    ensures n <= |s| && TrimLeft(s) == s[n..] && forall i :: 0 <= i < n ==> IsSpace(s[i])
  {
    n := 0;
    if s != [] && IsSpace(s[0]) {
      var m := TrimLeftTakes(s[1..]);
      n := m + 1;
    }
  }

  lemma {:induction false} TrimRightTakes(s: string)
    ensures TrimRight(s) <= s && forall i :: |TrimRight(s)| <= i < |s| ==> IsSpace(s[i])
  {
    if s != [] && IsSpace(s[|s| - 1]) {
      TrimRightTakes(s[..|s| - 1]);
    }
  }

  /** Trimming takes away whitespace at both ends, all of it, and nothing else. */
  lemma StripMeaning(s: string) returns (from: nat, till: nat)
    ensures from <= till <= |s| && Strip(s) == s[from..till]
    ensures forall i :: 0 <= i < from || till <= i < |s| ==> IsSpace(s[i])
    ensures from < till ==> !IsSpace(s[from]) && !IsSpace(s[till - 1])
  {
    from := TrimLeftTakes(s);
    TrimRightTakes(TrimLeft(s));
    till := from + |Strip(s)|;
    StrippedEnds(s);
  }

  /** A trimmed text has nothing left to trim. */
  lemma StripIdempotent(s: string)
    ensures Strip(Strip(s)) == Strip(s)
  {
    StrippedEnds(s);
  }

  function LowerChar(c: char): char {
    if 'A' <= c <= 'Z' then c - 'A' + 'a' else c
  }

  /** Capitals become their small letters, 32 places on, and nothing else changes. */
  lemma LowerCharMeaning(c: char)
    ensures var r := LowerChar(c);
      !('A' <= r <= 'Z') && (r == c || ('A' <= c <= 'Z' && r as int == c as int + 32))
  {
  }

  function Lower(s: string): string {
    seq(|s|, i requires 0 <= i < |s| => LowerChar(s[i]))
  }

  predicate Contains(s: string, part: string) {
    exists i :: 0 <= i <= |s| - |part| && s[i..][..|part|] == part
  }

  lemma ContainsMeaning(s: string, part: string)
    ensures Contains(s, part) <==> exists before, after :: s == before + part + after
  {
    if i :| 0 <= i <= |s| - |part| && s[i..][..|part|] == part {
      assert s == s[..i] + part + s[i..][|part|..];
    }
    if before, after :| s == before + part + after {
      assert s[|before|..][..|part|] == part;
    }
  }

  /** The form in which topic keys, channel names and the like are compared. */
  function Key(s: string): string { Lower(Strip(s)) }

  lemma KeyIdempotent(s: string)
    ensures Key(Key(s)) == Key(s)
  {
    var t := Strip(s);
    StripIdempotent(s);
    assert forall c :: IsSpace(LowerChar(c)) == IsSpace(c) && LowerChar(LowerChar(c)) == LowerChar(c);
    if t != [] {
      StrippedEnds(s);
      assert Lower(t)[0] == LowerChar(t[0]) && Lower(t)[|t| - 1] == LowerChar(t[|t| - 1]);
    }
    assert Strip(Lower(t)) == Lower(t);
    assert Lower(Lower(t)) == Lower(t);
  }
}
