/** JavaScript string operations used by several sources. A Dafny char is a Unicode scalar value, so
    strings here are well-formed Unicode. */
module JsText {
  /** White space and line terminators, as String.prototype.trim strips them. */
  predicate Blank(c: char) {
    var n := c as int;
    9 <= n <= 13 || n == 32 || n == 160 || n == 0x1680 || 0x2000 <= n <= 0x200A
    || n == 0x2028 || n == 0x2029 || n == 0x202F || n == 0x205F || n == 0x3000 || n == 0xFEFF
  }

  function TrimStart(s: string): string {
    if s != "" && Blank(s[0]) then TrimStart(s[1..]) else s
  }

  function TrimEnd(s: string): string {
    if s != "" && Blank(s[|s| - 1]) then TrimEnd(s[..|s| - 1]) else s
  }

  function Trim(s: string): string {
    TrimEnd(TrimStart(s))
  }

  predicate Trimmed(s: string) {
    s == "" || (!Blank(s[0]) && !Blank(s[|s| - 1]))
  }

  lemma {:induction false} TrimStartGives(s: string)
    ensures TrimStart(s) == "" || !Blank(TrimStart(s)[0])
  {
    if s != "" && Blank(s[0]) {
      TrimStartGives(s[1..]);
    }
  }

  lemma {:induction false} TrimEndGives(s: string)
    ensures TrimEnd(s) == "" || (!Blank(TrimEnd(s)[|TrimEnd(s)| - 1]) && TrimEnd(s)[0] == s[0])
  {
    if s != "" && Blank(s[|s| - 1]) {
      TrimEndGives(s[..|s| - 1]);
    }
  }

  /** Trimming leaves trimmed text, and leaves trimmed text alone. */
  lemma TrimGives(s: string)
    ensures Trimmed(Trim(s)) && (Trimmed(s) ==> Trim(s) == s)
  {
    TrimStartGives(s);
    TrimEndGives(TrimStart(s));
  }

  ghost predicate AllBlank(s: string) {
    forall i :: 0 <= i < |s| ==> Blank(s[i])
  }

  /** What is trimmed away is blank, on both sides. */
  lemma TrimSplits(s: string) returns (before: string, after: string)
    ensures s == before + Trim(s) + after && AllBlank(before) && AllBlank(after)
  {
    before := StartSplits(s);
    after := EndSplits(TrimStart(s));
    assert before + (Trim(s) + after) == before + Trim(s) + after;
  }

  lemma {:induction false} StartSplits(s: string) returns (before: string)
    ensures s == before + TrimStart(s) && AllBlank(before)
  {
    before := "";
    if s != "" && Blank(s[0]) {
      var rest := StartSplits(s[1..]);
      before := [s[0]] + rest;
      Rejoin([s[0]], rest, TrimStart(s[1..]), s[1..]);
      assert s == [s[0]] + s[1..];
    }
  }

  lemma {:induction false} EndSplits(s: string) returns (after: string)
    ensures s == TrimEnd(s) + after && AllBlank(after)
  {
    after := "";
    if s != "" && Blank(s[|s| - 1]) {
      var init, last := s[..|s| - 1], [s[|s| - 1]];
      var rest := EndSplits(init);
      after := rest + last;
      assert TrimEnd(init) + rest + last == TrimEnd(init) + (rest + last);
      assert s == init + last;
    }
  }

  lemma Rejoin(a: string, b: string, c: string, bc: string)
    requires bc == b + c
    ensures a + bc == (a + b) + c
  {
  }

  function Upper(c: char): char {
    if 'a' <= c <= 'f' then (c as int - 32) as char else c
  }

  /** A digit's value is its place in the row of digits. */
  lemma DigitValues(c: char)
    requires HexValue(c) < 16
    ensures "0123456789ABCDEF"[HexValue(c)] == Upper(c) == HexDigit(HexValue(c))
  {
  }

  /** The value of a hexadecimal digit of either case, or 16. */
  function HexValue(c: char): (v: nat)
    ensures v <= 16
  {
    var n := c as int;
    if 48 <= n <= 57 then n - 48
    else if 65 <= n <= 70 then n - 55
    else if 97 <= n <= 102 then n - 87
    else 16
  }

  /** Upper-case hexadecimal digit. */
  function HexDigit(v: nat): (c: char)
    requires v < 16
    ensures HexValue(c) == v
  {
    if v < 10 then (v + 48) as char else (v + 55) as char
  }
}
