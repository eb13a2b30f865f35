// String helpers with JavaScript meanings: `trim`, `join` and decimal printing.
module Text {

  // White space and line terminators, as `String.prototype.trim` strips them.
  predicate IsSpace(c: char) {
    var n := c as int;
    9 <= n <= 13 || n == 32 || n == 0xA0 || n == 0x1680 || 0x2000 <= n <= 0x200A
    || n == 0x2028 || n == 0x2029 || n == 0x202F || n == 0x205F || n == 0x3000 || n == 0xFEFF
  }

  predicate Trimmed(s: string) {
    s == "" || (!IsSpace(s[0]) && !IsSpace(s[|s| - 1]))
  }

  predicate Blank(s: string) {
    forall i :: 0 <= i < |s| ==> IsSpace(s[i])
  }

  function TrimStart(s: string): (t: string)
    ensures t == "" || !IsSpace(t[0])
    ensures s == "" || !IsSpace(s[0]) ==> t == s
    ensures t == "" <==> Blank(s)
  {
    if s != "" && IsSpace(s[0]) then
      assert forall i :: 1 <= i < |s| ==> s[i] == s[1..][i - 1];
      assert forall i :: 0 <= i < |s| - 1 ==> s[1..][i] == s[i + 1];
      TrimStart(s[1..])
    else s
  }

  function TrimEnd(s: string): (t: string)
    ensures t <= s
    ensures t == "" || !IsSpace(t[|t| - 1])
    ensures s == "" || !IsSpace(s[|s| - 1]) ==> t == s
    ensures s != "" && !IsSpace(s[0]) ==> t != ""
  {
    if s != "" && IsSpace(s[|s| - 1]) then TrimEnd(s[..|s| - 1]) else s
  }

  function Trim(s: string): (t: string)
    ensures Trimmed(t)
    ensures Trimmed(s) ==> t == s
    ensures t == "" <==> Blank(s)
  {
    TrimEnd(TrimStart(s))
  }

  lemma {:induction false} TrimStartCuts(s: string) returns (n: nat)
    ensures n <= |s| && Blank(s[..n]) && s[n..] == TrimStart(s)
  {
    if s != "" && IsSpace(s[0]) {
      var m := TrimStartCuts(s[1..]);
      n := m + 1;
      assert s[..n] == [s[0]] + s[1..][..m] && s[n..] == s[1..][m..];
    } else {
      n := 0;
    }
  }

  lemma {:induction false} TrimEndCuts(s: string) returns (blank: string)
    ensures s == TrimEnd(s) + blank && Blank(blank)
  {
    if s != "" && IsSpace(s[|s| - 1]) {
      var rest := TrimEndCuts(s[..|s| - 1]);
      blank := rest + [s[|s| - 1]];
      assert s == s[..|s| - 1] + [s[|s| - 1]];
    } else {
      blank := "";
    }
  }

  // What trimming cuts off is white space on either side.
  lemma TrimCuts(s: string)
    ensures exists before, after :: s == before + Trim(s) + after && Blank(before) && Blank(after)
  {
    var n := TrimStartCuts(s);
    var after := TrimEndCuts(TrimStart(s));
    assert s == s[..n] + Trim(s) + after;
  }

  function Join(parts: seq<string>, separator: string): string {
    if parts == [] then ""
    else if |parts| == 1 then parts[0]
    else parts[0] + separator + Join(parts[1..], separator)
  }

  lemma {:induction false} JoinAppend(xs: seq<string>, ys: seq<string>, separator: string)
    requires xs != [] && ys != []
    ensures Join(xs + ys, separator) == Join(xs, separator) + separator + Join(ys, separator)
  {
    assert (xs + ys)[1..] == xs[1..] + ys;
    if |xs| == 1 {
      assert (xs + ys)[1..] == ys;
    } else {
      JoinAppend(xs[1..], ys, separator);
      calc {
        Join(xs + ys, separator);
        xs[0] + separator + (Join(xs[1..], separator) + separator + Join(ys, separator));
        (xs[0] + separator + Join(xs[1..], separator)) + separator + Join(ys, separator);
      }
    }
  }

  // Joining trimmed, non-empty parts leaves nothing for a final `trim` to remove.
  lemma {:induction false} JoinTrimmed(parts: seq<string>, separator: string)
    requires forall i :: 0 <= i < |parts| ==> parts[i] != "" && Trimmed(parts[i])
    ensures Trimmed(Join(parts, separator))
    ensures Join(parts, separator) == "" <==> parts == []
  {
    if |parts| > 1 {
      JoinTrimmed(parts[1..], separator);
      var rest := Join(parts[1..], separator);
      var whole := Join(parts, separator);
      assert whole == parts[0] + separator + rest;
      assert whole[0] == parts[0][0];
      assert whole[|whole| - 1] == rest[|rest| - 1];
    }
  }

  function Digit(d: nat): (c: char)
    requires d < 10
    ensures '0' <= c <= '9' && c as int == '0' as int + d
  {
    ('0' as int + d) as char
  }

  function Decimal(n: nat): (s: string)
    ensures s != "" && forall i :: 0 <= i < |s| ==> '0' <= s[i] <= '9'
  {
    if n < 10 then [Digit(n)] else Decimal(n / 10) + [Digit(n % 10)]
  }

  lemma {:induction false} DecimalInjective(m: nat, n: nat)
    requires Decimal(m) == Decimal(n)
    ensures m == n
  {
    var s := Decimal(m);
    assert s[|s| - 1] == Digit(m % 10) && s[|s| - 1] == Digit(n % 10);
    if m >= 10 && n >= 10 {
      assert s[..|s| - 1] == Decimal(m / 10) == Decimal(n / 10);
      DecimalInjective(m / 10, n / 10);
    }
  }

  function LastIndex(s: string, c: char): (i: nat)
    requires c in s
    ensures i < |s| && s[i] == c && c !in s[i + 1..]
  {
    if s[|s| - 1] == c then |s| - 1
    else
      var i := LastIndex(s[..|s| - 1], c);
      assert s[i + 1..] == s[..|s| - 1][i + 1..] + [s[|s| - 1]];
      i
  }

  lemma {:induction false} LastIndexOf(p: string, q: string, c: char)
    requires c !in q
    ensures LastIndex(p + [c] + q, c) == |p|
  {
    if q != "" {
      var s := p + [c] + q;
      assert s[..|s| - 1] == p + [c] + q[..|q| - 1];
      LastIndexOf(p, q[..|q| - 1], c);
    }
  }

  // The last separator cuts a string in one way only.
  lemma SplitAtLast(p: string, q: string, p': string, q': string, c: char)
    requires p + [c] + q == p' + [c] + q'
    requires c !in q && c !in q'
    ensures p == p' && q == q'
  {
    LastIndexOf(p, q, c);
    LastIndexOf(p', q', c);
    var s := p + [c] + q;
    assert p == s[..|p|] == p';
    assert q == s[|p| + 1..] == q';
  }

  function FirstIndex(s: string, c: char): (i: nat)
    requires c in s
    ensures i < |s| && s[i] == c && c !in s[..i]
  {
    if s[0] == c then 0
    else
      var i := FirstIndex(s[1..], c);
      assert s[..i + 1] == [s[0]] + s[1..][..i];
      1 + i
  }

  lemma {:induction false} FirstIndexOf(p: string, q: string, c: char)
    requires c !in p
    ensures FirstIndex(p + [c] + q, c) == |p|
  {
    if p != "" {
      assert (p + [c] + q)[1..] == p[1..] + [c] + q;
      FirstIndexOf(p[1..], q, c);
    }
  }

  // And so does the first.
  lemma SplitAtFirst(p: string, q: string, p': string, q': string, c: char)
    requires p + [c] + q == p' + [c] + q'
    requires c !in p && c !in p'
    ensures p == p' && q == q'
  {
    FirstIndexOf(p, q, c);
    FirstIndexOf(p', q', c);
    var s := p + [c] + q;
    assert p == s[..|p|] == p';
    assert q == s[|p| + 1..] == q';
  }
}
