/** String helpers behind the JavaScript built-ins the trainer uses: `trim`,
    `split`, `join`, `replace(/\*\* /g, '')`, `String(n)` and `padStart`. */
module Text {

  /** Whitespace as `String.prototype.trim` removes it: the white space and line
      terminator characters of ECMAScript, with the space separators (category Zs)
      listed as of Unicode 15. */
  predicate IsSpace(c: char)
  {
    || c == '\t' || c == '\U{000B}' || c == '\U{000C}' || c == '\U{FEFF}'
    || c == '\n' || c == '\r' || c == '\U{2028}' || c == '\U{2029}'
    || c == ' ' || c == '\U{00A0}' || c == '\U{1680}' || '\U{2000}' <= c <= '\U{200A}'
    || c == '\U{202F}' || c == '\U{205F}' || c == '\U{3000}'
  }

  predicate AllSpace(s: string)
  {
    forall i :: 0 <= i < |s| ==> IsSpace(s[i])
  }

  /** Neither end of `s` is whitespace. */
  predicate Tight(s: string)
  {
    s == [] || (!IsSpace(s[0]) && !IsSpace(s[|s| - 1]))
  }

  /** `s.trim()`: whitespace removed from both ends, first from the front,
      then from the back. */
  function Trim(s: string): (r: string)
    ensures Tight(r) && |r| <= |s|
  {
    if s != [] && IsSpace(s[0]) then Trim(s[1..])
    else if s != [] && IsSpace(s[|s| - 1]) then Trim(s[..|s| - 1])
    else s
  }

  lemma AllSpaceConcat(a: string, b: string)
    requires AllSpace(a) && AllSpace(b)
    ensures AllSpace(a + b)
  {
    forall i | 0 <= i < |a + b| ensures IsSpace((a + b)[i]) {
      if i >= |a| { assert (a + b)[i] == b[i - |a|]; }
    }
  }

  /** What `trim` keeps sits between a whitespace prefix and a whitespace suffix. */
  lemma {:induction false} TrimSplit(s: string) returns (lead: string, trail: string)
    ensures s == lead + Trim(s) + trail && AllSpace(lead) && AllSpace(trail)
    decreases |s|, 1
  {
    if s != [] && IsSpace(s[0]) {
      lead, trail := TrimSplitFront(s);
    } else if s != [] && IsSpace(s[|s| - 1]) {
      lead, trail := TrimSplitBack(s);
    } else {
      lead, trail := [], [];
      assert Trim(s) == s;
    }
  }

  lemma {:induction false} TrimSplitFront(s: string) returns (lead: string, trail: string)
    requires s != [] && IsSpace(s[0])
    ensures s == lead + Trim(s) + trail && AllSpace(lead) && AllSpace(trail)
    decreases |s|, 0
  {
    var rest := s[1..];
    assert Trim(s) == Trim(rest);
    var l, t := TrimSplit(rest);
    lead, trail := [s[0]] + l, t;
    AllSpaceConcat([s[0]], l);
    assert s == [s[0]] + rest;
  }

  lemma {:induction false} TrimSplitBack(s: string) returns (lead: string, trail: string)
    requires s != [] && !IsSpace(s[0]) && IsSpace(s[|s| - 1])
    ensures s == lead + Trim(s) + trail && AllSpace(lead) && AllSpace(trail)
    decreases |s|, 0
  {
    var init := s[..|s| - 1];
    assert Trim(s) == Trim(init);
    var l, t := TrimSplit(init);
    lead, trail := l, t + [s[|s| - 1]];
    AllSpaceConcat(t, [s[|s| - 1]]);
    assert s == init + [s[|s| - 1]];
  }

  /** Trimming is determined by the tight core: whitespace around a tight
      string is exactly what `trim` removes. */
  lemma {:induction false} TrimOfPadded(a: string, t: string, b: string)
    requires AllSpace(a) && AllSpace(b) && Tight(t)
    ensures Trim(a + t + b) == t
    decreases |a| + |b|
  {
    var s := a + t + b;
    if a != [] {
      assert s[0] == a[0] && s[1..] == a[1..] + t + b;
      assert AllSpace(a[1..]) by {
        forall i | 0 <= i < |a[1..]| ensures IsSpace(a[1..][i]) { assert a[1..][i] == a[i + 1]; }
      }
      TrimOfPadded(a[1..], t, b);
    } else if t == [] && b != [] {
      assert s == b && s[1..] == [] + t + b[1..];
      assert AllSpace(b[1..]) by {
        forall i | 0 <= i < |b[1..]| ensures IsSpace(b[1..][i]) { assert b[1..][i] == b[i + 1]; }
      }
      TrimOfPadded([], t, b[1..]);
    } else if b != [] {
      var init := b[..|b| - 1];
      assert s[0] == t[0] && s[|s| - 1] == b[|b| - 1];
      assert s[..|s| - 1] == [] + t + init;
      assert AllSpace(init) by {
        forall i | 0 <= i < |init| ensures IsSpace(init[i]) { assert init[i] == b[i]; }
      }
      TrimOfPadded([], t, init);
    } else {
      assert s == t;
    }
  }

  lemma TrimOfTight(t: string)
    requires Tight(t)
    ensures Trim(t) == t
  {
  }

  /** Adding whitespace at either end does not change the trimmed value. */
  lemma TrimIgnoresPadding(w1: string, s: string, w2: string)
    requires AllSpace(w1) && AllSpace(w2)
    ensures Trim(w1 + s + w2) == Trim(s)
  {
    var lead, trail := TrimSplit(s);
    AllSpaceConcat(w1, lead);
    AllSpaceConcat(trail, w2);
    assert w1 + s + w2 == (w1 + lead) + Trim(s) + (trail + w2);
    TrimOfPadded(w1 + lead, Trim(s), trail + w2);
  }

  /** `xs.join(sep)`. */
  function Join(xs: seq<string>, sep: string): (r: string)
    ensures |xs| == 1 ==> r == xs[0]
  {
    if |xs| == 0 then ""
    else if |xs| == 1 then xs[0]
    else xs[0] + sep + Join(xs[1..], sep)
  }

  /** A join opens with its first piece; with no pieces it is empty. */
  lemma JoinHead(xs: seq<string>, sep: string)
    ensures |xs| == 0 ==> Join(xs, sep) == ""
    ensures |xs| >= 1 ==> xs[0] <= Join(xs, sep)
  {
    if |xs| > 1 {
      assert (xs[0] + sep + Join(xs[1..], sep))[..|xs[0]|] == xs[0];
    }
  }

  /** `s.split(c)` for a one-character separator. */
  function Split(s: string, c: char): (r: seq<string>)
    ensures |r| >= 1
  {
    if s == [] then [""]
    else if s[0] == c then [""] + Split(s[1..], c)
    else var rest := Split(s[1..], c); [[s[0]] + rest[0]] + rest[1..]
  }

  function Count(s: string, c: char): nat
  {
    if s == [] then 0 else (if s[0] == c then 1 else 0) + Count(s[1..], c)
  }

  /** `split` yields one more piece than there are separators. */
  lemma {:induction false} SplitSize(s: string, c: char)
    ensures |Split(s, c)| == Count(s, c) + 1
  {
    if s != [] {
      SplitSize(s[1..], c);
    }
  }

  lemma {:induction false} SplitWithout(a: string, c: char)
    requires c !in a
    ensures Split(a, c) == [a]
  {
    if a != [] {
      SplitWithout(a[1..], c);
      assert [a[0]] + a[1..] == a;
    }
  }

  lemma {:induction false} SplitAtFirst(a: string, c: char, b: string)
    requires c !in a
    ensures Split(a + [c] + b, c) == [a] + Split(b, c)
  {
    if a == [] {
      assert a + [c] + b == [c] + b;
      assert ([c] + b)[1..] == b;
    } else {
      assert (a + [c] + b)[1..] == a[1..] + [c] + b;
      SplitAtFirst(a[1..], c, b);
      assert [a[0]] + a[1..] == a;
    }
  }

  /** Two separator-free pieces around one separator split back into those pieces. */
  lemma SplitPair(a: string, c: char, b: string)
    requires c !in a && c !in b
    ensures Split(a + [c] + b, c) == [a, b]
  {
    SplitAtFirst(a, c, b);
    SplitWithout(b, c);
  }

  predicate NoneContain(xs: seq<string>, c: char)
  {
    forall i :: 0 <= i < |xs| ==> c !in xs[i]
  }

  /** Splitting a join on a separator that no piece contains gives back the pieces. */
  lemma {:induction false} SplitJoin(xs: seq<string>, c: char)
    requires |xs| >= 1 && NoneContain(xs, c)
    ensures Split(Join(xs, [c]), c) == xs
  {
    if |xs| == 1 {
      SplitWithout(xs[0], c);
    } else {
      SplitJoin(xs[1..], c);
      SplitAtFirst(xs[0], c, Join(xs[1..], [c]));
    }
  }

  /** The characters of a join are those of the pieces and the separators. */
  lemma {:induction false} JoinChars(xs: seq<string>, sep: string, c: char)
    requires NoneContain(xs, c) && c !in sep
    ensures c !in Join(xs, sep)
  {
    if |xs| > 1 {
      JoinChars(xs[1..], sep, c);
    }
  }

  /** `s.replace(/\*\* /g, '')`: every non-overlapping `**`, left to right, removed. */
  function StripBold(s: string): (r: string)
    ensures |r| <= |s|
  {
    if |s| >= 2 && s[0] == '*' && s[1] == '*' then StripBold(s[2..])
    else if s == [] then []
    else [s[0]] + StripBold(s[1..])
  }

  predicate HasDoubleStar(s: string)
  {
    exists i :: 0 <= i < |s| - 1 && s[i] == '*' && s[i + 1] == '*'
  }

  lemma {:induction false} StripBoldHead(s: string)
    requires s != [] && s[0] != '*'
    ensures StripBold(s) != [] && StripBold(s)[0] == s[0]
  {
  }

  /** No `**` survives the removal. */
  lemma {:induction false} StripBoldRemovesAll(s: string)
    ensures !HasDoubleStar(StripBold(s))
    decreases |s|
  {
    if |s| >= 2 && s[0] == '*' && s[1] == '*' {
      StripBoldRemovesAll(s[2..]);
    } else if s != [] {
      StripBoldRemovesAll(s[1..]);
      var r := StripBold(s);
      var rest := StripBold(s[1..]);
      assert r == [s[0]] + rest;
      if s[0] == '*' && rest != [] {
        assert s[1] != '*';
        StripBoldHead(s[1..]);
      }
      forall i | 0 <= i < |r| - 1 && r[i] == '*'
        ensures r[i + 1] != '*'
      {
        if i > 0 {
          assert r[i] == rest[i - 1] && r[i + 1] == rest[i];
        }
      }
    }
  }

  /** A text with no `**` is left as it is. */
  lemma {:induction false} StripBoldKeepsPlain(s: string)
    requires !HasDoubleStar(s)
    ensures StripBold(s) == s
  {
    if s != [] {
      assert !HasDoubleStar(s[1..]) by {
        forall i | 0 <= i < |s[1..]| - 1 && s[1..][i] == '*'
          ensures s[1..][i + 1] != '*'
        {
          assert s[i + 1] == '*';
        }
      }
      StripBoldKeepsPlain(s[1..]);
      if |s| >= 2 {
        assert !(s[0] == '*' && s[1] == '*');
      }
      assert [s[0]] + s[1..] == s;
    }
  }

  /** Text before a marker is kept as it is, the marker is dropped, and removal
      goes on after it. */
  lemma {:induction false} StripBoldMarker(a: string, b: string)
    requires '*' !in a
    ensures StripBold(a + "**" + b) == a + StripBold(b)
  {
    if a == [] {
      assert a + "**" + b == "**" + b;
      assert ("**" + b)[2..] == b;
    } else {
      assert (a + "**" + b)[0] == a[0];
      assert (a + "**" + b)[1..] == a[1..] + "**" + b;
      StripBoldMarker(a[1..], b);
      assert [a[0]] + a[1..] == a;
    }
  }

  /** A star-free heading wrapped in markers comes out as the bare heading. */
  lemma StripBoldHeading(h: string)
    requires '*' !in h
    ensures StripBold("**" + h + "**") == h
  {
    StripBoldMarker([], h + "**");
    assert [] + "**" + (h + "**") == "**" + h + "**";
    StripBoldMarker(h, []);
    assert h + "**" + [] == h + "**";
  }

  /** JavaScript `s.substring(start, end)`: both indices are clamped to the
      string, and swapped when `start > end`. */
  function Substring(s: string, start: int, end: int): (r: string)
    ensures 0 <= start <= end <= |s| ==> r == s[start..end]
    ensures |r| <= |s|
  {
    var a := if start < 0 then 0 else if start > |s| then |s| else start;
    var b := if end < 0 then 0 else if end > |s| then |s| else end;
    if a <= b then s[a..b] else s[b..a]
  }

  predicate StartsWith(s: string, p: string)
  {
    |p| <= |s| && s[..|p|] == p
  }

  predicate EndsWith(s: string, p: string)
  {
    |p| <= |s| && s[|s| - |p|..] == p
  }

  /** Appending keeps a prefix. */
  lemma StartsWithAppend(s: string, p: string, t: string)
    requires StartsWith(s, p)
    ensures StartsWith(s + t, p)
  {
    assert (s + t)[..|p|] == s[..|p|];
  }

  /** A text built from nine pieces, as the error-line templates are, opens with
      its first two pieces and ends with its last three. */
  lemma NinePieces(a0: string, a1: string, a2: string, a3: string, a4: string,
                   a5: string, a6: string, a7: string, a8: string)
    ensures StartsWith(a0 + a1 + a2 + a3 + a4 + a5 + a6 + a7 + a8, a0 + a1)
    ensures EndsWith(a0 + a1 + a2 + a3 + a4 + a5 + a6 + a7 + a8, a6 + a7 + a8)
  {
    var p := a0 + a1;
    assert StartsWith(p, p);
    StartsWithAppend(p, p, a2);
    StartsWithAppend(p + a2, p, a3);
    StartsWithAppend(p + a2 + a3, p, a4);
    StartsWithAppend(p + a2 + a3 + a4, p, a5);
    StartsWithAppend(p + a2 + a3 + a4 + a5, p, a6);
    StartsWithAppend(p + a2 + a3 + a4 + a5 + a6, p, a7);
    StartsWithAppend(p + a2 + a3 + a4 + a5 + a6 + a7, p, a8);
    EndsWithLastThree(p + a2 + a3 + a4 + a5, a6, a7, a8);
  }

  /** The last three pieces of a concatenation are its suffix. */
  lemma EndsWithLastThree(a: string, b: string, c: string, d: string)
    ensures EndsWith(a + b + c + d, b + c + d)
  {
    assert a + b + c + d == a + (b + c + d);
  }

  predicate IsDigit(c: char)
  {
    '0' <= c <= '9'
  }

  predicate AllDigits(s: string)
  {
    forall i :: 0 <= i < |s| ==> IsDigit(s[i])
  }

  function DigitChar(d: nat): (c: char)
    requires d < 10
    ensures IsDigit(c) && c as int - '0' as int == d
  {
    ('0' as int + d) as char
  }

  /** `String(n)` for a non-negative integer: its decimal digits, no leading zero. */
  function NatToString(n: nat): (r: string)
    ensures |r| >= 1 && AllDigits(r)
    ensures (n < 10) == (|r| == 1)
    ensures 10 <= n < 100 ==> |r| == 2
    ensures |r| > 1 ==> r[0] != '0'
  {
    if n < 10 then [DigitChar(n)] else NatToString(n / 10) + [DigitChar(n % 10)]
  }

  /** `String(n + 1)`: digits without a leading zero that read back as `n + 1`. */
  lemma OneBasedLabel(n: nat)
    ensures var d := NatToString(n + 1); AllDigits(d) && d[0] != '0' && ParseDecimal(d) == n + 1
  {
    ParseNatToString(n + 1);
  }

  /** Reads a string of decimal digits (leading zeros allowed). */
  function ParseDecimal(s: string): nat
    requires AllDigits(s)
  {
    if s == [] then 0
    else ParseDecimal(s[..|s| - 1]) * 10 + (s[|s| - 1] as int - '0' as int)
  }

  lemma {:induction false} ParseNatToString(n: nat)
    ensures ParseDecimal(NatToString(n)) == n
  {
    if n >= 10 {
      var r := NatToString(n);
      assert r[..|r| - 1] == NatToString(n / 10);
      ParseNatToString(n / 10);
    }
  }

  /** `s.padStart(width, fill)`. */
  function PadStart(s: string, width: nat, fill: char): (r: string)
    ensures |r| == if |s| >= width then |s| else width
    ensures EndsWith(r, s)
    ensures forall i :: 0 <= i < |r| - |s| ==> r[i] == fill
  {
    if |s| >= width then s else seq(width - |s|, _ => fill) + s
  }

  lemma {:induction false} ParseLeadingZeros(z: string, s: string)
    requires AllDigits(z + s) && forall i :: 0 <= i < |z| ==> z[i] == '0'
    ensures AllDigits(s) && ParseDecimal(z + s) == ParseDecimal(s)
    decreases |s|
  {
    assert forall i :: 0 <= i < |s| ==> s[i] == (z + s)[|z| + i];
    if s == [] {
      assert z + s == z;
      ZerosParseToZero(z);
    } else {
      var init := s[..|s| - 1];
      assert (z + s)[..|z + s| - 1] == z + init;
      ParseLeadingZeros(z, init);
    }
  }

  lemma {:induction false} ZerosParseToZero(z: string)
    requires forall i :: 0 <= i < |z| ==> z[i] == '0'
    ensures AllDigits(z) && ParseDecimal(z) == 0
  {
    if z != [] {
      ZerosParseToZero(z[..|z| - 1]);
    }
  }

  /** Zero-padding a number's digits does not change the number read back. */
  lemma PaddedNumberParses(n: nat, width: nat)
    ensures AllDigits(PadStart(NatToString(n), width, '0'))
    ensures ParseDecimal(PadStart(NatToString(n), width, '0')) == n
  {
    var s := NatToString(n);
    var p := PadStart(s, width, '0');
    var z := p[..|p| - |s|];
    assert p == z + s;
    ParseLeadingZeros(z, s);
    ParseNatToString(n);
  }
}
