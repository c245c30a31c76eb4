/** String searching and splitting as the JavaScript string methods do it. */
module Text {
  import opened Collections

  /** The leftmost position of `c`, or -1. */
  function IndexOf(s: string, c: char): (i: int)
    ensures -1 <= i < |s|
    ensures i >= 0 ==> s[i] == c
    ensures forall j | 0 <= j < (if i < 0 then |s| else i) :: s[j] != c
  {
    if s == "" then -1
    else if s[0] == c then 0
    else
      var r := IndexOf(s[1..], c);
      if r < 0 then -1 else r + 1
  }

  /** The pieces of `s` between its newlines. */
  function Lines(s: string): seq<string>
    decreases |s|
  {
    var i := IndexOf(s, '\n');
    if i < 0 then [s] else [s[..i]] + Lines(s[i + 1..])
  }

  function Joined(lines: seq<string>): string {
    if lines == [] then ""
    else if |lines| == 1 then lines[0]
    else lines[0] + "\n" + Joined(lines[1..])
  }

  lemma JoinedOneMore(line: string, lines: seq<string>)
    requires lines != []
    ensures Joined([line] + lines) == line + "\n" + Joined(lines)
  {
    assert ([line] + lines)[1..] == lines;
  }

  lemma CutAtNewline(s: string, i: nat)
    requires i < |s| && s[i] == '\n'
    ensures s == s[..i] + "\n" + s[i + 1..]
  {
  }

  predicate NoNewlines(lines: seq<string>) { forall k | 0 <= k < |lines| :: '\n' !in lines[k] }

  /** The lines hold no newline, and newlines between them give the text back. */
  lemma {:induction false} LinesAreTheText(s: string)
    ensures Lines(s) != [] && Joined(Lines(s)) == s && NoNewlines(Lines(s))
    decreases |s|
  {
    var i := IndexOf(s, '\n');
    if i >= 0 {
      var rest := s[i + 1..];
      LinesAreTheText(rest);
      JoinedOneMore(s[..i], Lines(rest));
      CutAtNewline(s, i);
      assert '\n' !in s[..i];
    }
  }

  lemma LinesSplit(line: string, rest: string)
    requires '\n' !in line
    ensures Lines(line + "\n" + rest) == [line] + Lines(rest)
  {
    var s := line + "\n" + rest;
    assert s[|line|] == '\n' && forall j | 0 <= j < |line| :: s[j] == line[j];
    assert s[..|line|] == line && s[|line| + 1..] == rest;
  }

  lemma LinesSingle(line: string)
    requires '\n' !in line
    ensures Lines(line) == [line]
  {
  }

  /** White space and line terminators of ECMAScript (ECMA-262, sections 12.2 and 12.3). */
  predicate IsBlank(c: char) {
    || c == ' ' || '\t' <= c <= '\r' || c == '\U{A0}' || c == '\U{1680}' || '\U{2000}' <= c <= '\U{200A}'
    || c == '\U{2028}' || c == '\U{2029}' || c == '\U{202F}' || c == '\U{205F}' || c == '\U{3000}' || c == '\U{FEFF}'
  }

  function TrimStart(s: string): (t: string)
    ensures t == "" || !IsBlank(t[0])
    ensures s == "" || !IsBlank(s[0]) ==> t == s
    ensures forall c | c in t :: c in s
    ensures |t| <= |s| && (t != "" ==> s[|s| - 1] == t[|t| - 1])
  {
    if s != "" && IsBlank(s[0]) then TrimStart(s[1..]) else s
  }

  function TrimEnd(s: string): (t: string)
    ensures t == "" || !IsBlank(t[|t| - 1])
    ensures s == "" || !IsBlank(s[|s| - 1]) ==> t == s
    ensures forall c | c in t :: c in s
    ensures |t| <= |s| && (t != "" ==> s[0] == t[0])
  {
    if s != "" && IsBlank(s[|s| - 1]) then TrimEnd(s[..|s| - 1]) else s
  }

  function Trim(s: string): string { TrimEnd(TrimStart(s)) }

  /** Trimming takes away the blanks at both ends and nothing else. */
  lemma TrimmedIs(s: string) returns (i: nat, j: nat)
    ensures i <= j <= |s| && Trim(s) == s[i..j]
    ensures forall k | 0 <= k < i || j <= k < |s| :: IsBlank(s[k])
    ensures i < j ==> !IsBlank(s[i]) && !IsBlank(s[j - 1])
  {
    i := TrimmedStart(s);
    var n := TrimmedEnd(s[i..]);
    j := i + n;
    assert s[i..][..n] == s[i..j];
    assert forall k | j <= k < |s| :: s[k] == s[i..][k - i];
  }

  lemma {:induction false} TrimmedStart(s: string) returns (i: nat)
    ensures i <= |s| && TrimStart(s) == s[i..] && (forall k | 0 <= k < i :: IsBlank(s[k]))
    ensures i < |s| ==> !IsBlank(s[i])
  {
    if s != "" && IsBlank(s[0]) {
      i := TrimmedStart(s[1..]);
      i := i + 1;
    } else {
      i := 0;
    }
  }

  lemma {:induction false} TrimmedEnd(s: string) returns (n: nat)
    ensures n <= |s| && TrimEnd(s) == s[..n] && (forall k | n <= k < |s| :: IsBlank(s[k]))
    ensures n > 0 ==> !IsBlank(s[n - 1])
  {
    if s != "" && IsBlank(s[|s| - 1]) {
      n := TrimmedEnd(s[..|s| - 1]);
    } else {
      n := |s|;
    }
  }

  function Concat(parts: seq<string>): string {
    if parts == [] then "" else parts[0] + Concat(parts[1..])
  }

  lemma {:induction false} ConcatAppend(a: seq<string>, b: seq<string>)
    ensures Concat(a + b) == Concat(a) + Concat(b)
  {
    if a == [] {
      assert a + b == b;
    } else {
      ConcatAppend(a[1..], b);
      assert (a + b)[1..] == a[1..] + b;
      Associative(a[0], Concat(a[1..]), Concat(b));
    }
  }

  /** The texts that are not empty. */
  function NonEmpty(texts: seq<string>): seq<string> {
    if texts == [] then []
    else (if |texts[0]| > 0 then [texts[0]] else []) + NonEmpty(texts[1..])
  }

  lemma {:induction false} NonEmptyAppend(a: seq<string>, b: seq<string>)
    ensures NonEmpty(a + b) == NonEmpty(a) + NonEmpty(b)
  {
    if a == [] {
      assert a + b == b;
    } else {
      NonEmptyAppend(a[1..], b);
      assert (a + b)[1..] == a[1..] + b;
      var head := if |a[0]| > 0 then [a[0]] else [];
      Associative(head, NonEmpty(a[1..]), NonEmpty(b));
    }
  }

  /** The decimal digits of `n`. */
  function Decimal(n: nat): (s: string)
    ensures s != "" && forall c | c in s :: '0' <= c <= '9'
  {
    var last := ['0' + (n % 10) as char];
    if n < 10 then last else Decimal(n / 10) + last
  }

  /** The number that digits stand for. */
  function FromDigits(s: string): int {
    if s == "" then 0 else 10 * FromDigits(s[..|s| - 1]) + (s[|s| - 1] as int - '0' as int)
  }

  lemma {:induction false} DecimalIsTheNumber(n: nat)
    ensures FromDigits(Decimal(n)) == n
    ensures n > 0 ==> Decimal(n)[0] != '0'
  {
    var s := Decimal(n);
    assert s[|s| - 1] == '0' + (n % 10) as char;
    if n < 10 {
      assert s[..|s| - 1] == "";
    } else {
      DecimalIsTheNumber(n / 10);
      assert s[..|s| - 1] == Decimal(n / 10);
    }
  }

  lemma DecimalInjective(m: nat, n: nat)
    requires Decimal(m) == Decimal(n)
    ensures m == n
  {
    DecimalIsTheNumber(m);
    DecimalIsTheNumber(n);
  }
}
