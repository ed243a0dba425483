/** The pieces of Go's `strings` and `strconv` packages that the REDCap client
    relies on, stated over `string` (a sequence of Unicode scalar values). */
module GoStrings {
  import opened Outcomes

  const MIN_INT64: int := -0x8000_0000_0000_0000
  const MAX_INT64: int := 0x7FFF_FFFF_FFFF_FFFF

  // ---------------------------------------------------------------------------
  // strings.Split and strings.Join

  /** strings.Split(s, sep) for a one-character separator: the text between
      consecutive separators, so an empty `s` gives one empty piece. */
  function Split(s: string, sep: char): (pieces: seq<string>)
    ensures |pieces| >= 1
    ensures forall i :: 0 <= i < |pieces| ==> sep !in pieces[i]
    decreases |s|
  {
    if s == [] then [""]
    else
      var rest := Split(s[1..], sep);
      if s[0] == sep then [""] + rest
      else [[s[0]] + rest[0]] + rest[1..]
  }

  /** strings.Join(xs, sep). */
  function Join(xs: seq<string>, sep: string): string
    decreases |xs|
  {
    if xs == [] then ""
    else if |xs| == 1 then xs[0]
    else xs[0] + sep + Join(xs[1..], sep)
  }

  /** Joining the pieces of a split with the separator gives back the input. */
  lemma {:induction false} JoinSplit(s: string, sep: char)
    ensures Join(Split(s, sep), [sep]) == s
    decreases |s|
  {
    if s != [] {
      var rest := Split(s[1..], sep);
      JoinSplit(s[1..], sep);
      if s[0] == sep {
        assert Split(s, sep) == [""] + rest;
        assert s == [sep] + s[1..];
      } else {
        var pieces := Split(s, sep);
        assert pieces == [[s[0]] + rest[0]] + rest[1..];
        if |rest| == 1 {
          assert Join(pieces, [sep]) == [s[0]] + rest[0];
        } else {
          assert rest == [rest[0]] + rest[1..];
          assert Join(rest, [sep]) == rest[0] + [sep] + Join(rest[1..], [sep]);
          assert pieces[1..] == rest[1..];
        }
        assert s == [s[0]] + s[1..];
      }
    }
  }

  /** A text without the separator is split into itself. */
  lemma {:induction false} SplitWithoutSeparator(s: string, sep: char)
    requires sep !in s
    ensures Split(s, sep) == [s]
    decreases |s|
  {
    if s != [] {
      assert sep !in s[1..];
      SplitWithoutSeparator(s[1..], sep);
      assert s == [s[0]] + s[1..];
    }
  }

  /** A separator after a separator-free head ends the first piece there. */
  lemma {:induction false} SplitAfterHead(head: string, sep: char, tail: string)
    requires sep !in head
    ensures Split(head + [sep] + tail, sep) == [head] + Split(tail, sep)
    decreases |head|
  {
    var s := head + [sep] + tail;
    if head == [] {
      assert s == [sep] + tail;
      assert s[1..] == tail;
    } else {
      assert s[0] == head[0];
      assert s[1..] == head[1..] + [sep] + tail;
      assert sep !in head[1..];
      SplitAfterHead(head[1..], sep, tail);
      assert [head[0]] + head[1..] == head;
    }
  }

  /** Splitting a join of separator-free pieces gives back the pieces. */
  lemma {:induction false} SplitJoin(xs: seq<string>, sep: char)
    requires |xs| >= 1
    requires forall i :: 0 <= i < |xs| ==> sep !in xs[i]
    ensures Split(Join(xs, [sep]), sep) == xs
    decreases |xs|
  {
    if |xs| == 1 {
      SplitWithoutSeparator(xs[0], sep);
    } else {
      SplitJoin(xs[1..], sep);
      SplitAfterHead(xs[0], sep, Join(xs[1..], [sep]));
      assert xs == [xs[0]] + xs[1..];
    }
  }

  /** Appending one more piece to a non-empty join. */
  lemma {:induction false} JoinSnoc(xs: seq<string>, x: string, sep: string)
    requires |xs| >= 1
    ensures Join(xs + [x], sep) == Join(xs, sep) + sep + x
    decreases |xs|
  {
    if |xs| == 1 {
      assert (xs + [x])[1..] == [x];
    } else {
      assert (xs + [x])[1..] == xs[1..] + [x];
      JoinSnoc(xs[1..], x, sep);
    }
  }

  /** Putting one more piece in front of a non-empty join. */
  lemma JoinCons(x: string, xs: seq<string>, sep: string)
    requires |xs| >= 1
    ensures Join([x] + xs, sep) == x + sep + Join(xs, sep)
  {
    assert ([x] + xs)[1..] == xs;
  }

  /** The first piece opens a non-empty join, and the last piece closes it. */
  lemma JoinEnds(xs: seq<string>, sep: string)
    requires |xs| >= 1
    ensures HasPrefix(Join(xs, sep), xs[0])
    ensures HasSuffix(Join(xs, sep), xs[|xs| - 1])
  {
    var n := |xs| - 1;
    if n > 0 {
      assert xs == xs[..n] + [xs[n]];
      JoinSnoc(xs[..n], xs[n], sep);
      assert (Join(xs[..n], sep) + sep + xs[n])[|Join(xs, sep)| - |xs[n]|..] == xs[n];
    }
  }

  // ---------------------------------------------------------------------------
  // strings.HasPrefix and strings.HasSuffix

  predicate HasPrefix(s: string, prefix: string) {
    |prefix| <= |s| && s[..|prefix|] == prefix
  }

  predicate HasSuffix(s: string, suffix: string) {
    |suffix| <= |s| && s[|s| - |suffix|..] == suffix
  }

  lemma PrefixOfLonger(s: string, prefix: string, more: string)
    requires HasPrefix(s, prefix)
    ensures HasPrefix(s + more, prefix)
  {
    assert (s + more)[..|prefix|] == s[..|prefix|];
  }

  lemma PrefixBehind(s: string, prefix: string, front: string)
    requires HasPrefix(s, prefix)
    ensures HasPrefix(front + s, front + prefix)
  {
    assert (front + s)[..|front + prefix|] == front + s[..|prefix|];
  }

  lemma SuffixOfLonger(s: string, suffix: string, front: string)
    requires HasSuffix(s, suffix)
    ensures HasSuffix(front + s, suffix)
  {
    assert (front + s)[|front + s| - |suffix|..] == s[|s| - |suffix|..];
  }

  lemma SuffixBefore(s: string, suffix: string, more: string)
    requires HasSuffix(s, suffix)
    ensures HasSuffix(s + more, suffix + more)
  {
    assert (s + more)[|s + more| - |suffix + more|..] == s[|s| - |suffix|..] + more;
  }

  // ---------------------------------------------------------------------------
  // strings.TrimSpace and strings.TrimRight

  /** unicode.IsSpace: the Latin-1 spaces and the other White_Space code points. */
  predicate IsSpace(c: char) {
    || c == '\t' || c == '\n' || c == '\U{000B}' || c == '\U{000C}' || c == '\r' || c == ' '
    || c == '\U{0085}' || c == '\U{00A0}' || c == '\U{1680}'
    || ('\U{2000}' <= c <= '\U{200A}')
    || c == '\U{2028}' || c == '\U{2029}' || c == '\U{202F}' || c == '\U{205F}' || c == '\U{3000}'
  }

  /** Drops the leading white space of `s`. */
  function TrimLeftSpace(s: string): (r: string)
    ensures |r| <= |s| && r == s[|s| - |r|..]
    ensures forall k :: 0 <= k < |s| - |r| ==> IsSpace(s[k])
    ensures r == [] || !IsSpace(r[0])
    decreases |s|
  {
    if s != [] && IsSpace(s[0]) then TrimLeftSpace(s[1..]) else s
  }

  /** Drops the trailing white space of `s`. */
  function TrimRightSpace(s: string): (r: string)
    ensures |r| <= |s| && r == s[..|r|]
    ensures forall k :: |r| <= k < |s| ==> IsSpace(s[k])
    ensures r == [] || !IsSpace(r[|r| - 1])
    decreases |s|
  {
    if s != [] && IsSpace(s[|s| - 1]) then TrimRightSpace(s[..|s| - 1]) else s
  }

  /** Every character of `s` is white space. */
  predicate AllSpace(s: string)
    decreases |s|
  {
    s == [] || (IsSpace(s[0]) && AllSpace(s[1..]))
  }

  /** strings.TrimSpace: drops the leading and the trailing white space. */
  function TrimSpace(s: string): string {
    TrimRightSpace(TrimLeftSpace(s))
  }

  /** TrimSpace removes white space at both ends of `s`, and nothing else:
      `s` is the trimmed text between a white-space prefix and suffix. */
  lemma TrimSpaceRemovesOnlySpace(s: string) returns (lead: string, trail: string)
    ensures s == lead + TrimSpace(s) + trail
    ensures AllSpace(lead) && AllSpace(trail)
    ensures var r := TrimSpace(s); r == [] || (!IsSpace(r[0]) && !IsSpace(r[|r| - 1]))
  {
    var left := TrimLeftSpace(s);
    var r := TrimRightSpace(left);
    var n := |s| - |left|;
    assert left == s[n..] && r == left[..|r|];
    lead, trail := s[..n], left[|r|..];
    SpacePrefix(s, n);
    SpaceSuffix(left, |r|);
    SplitThree(s, n, |r|);
    assert s == lead + r + trail;
  }

  lemma SplitThree(s: string, n: nat, m: nat)
    requires n + m <= |s|
    ensures s == s[..n] + s[n..][..m] + s[n..][m..]
  {
    assert s == s[..n] + s[n..];
    assert s[n..] == s[n..][..m] + s[n..][m..];
  }

  lemma {:induction false} SpacePrefix(s: string, n: nat)
    requires n <= |s|
    requires forall k :: 0 <= k < n ==> IsSpace(s[k])
    ensures AllSpace(s[..n])
    decreases n
  {
    if n > 0 {
      SpacePrefix(s[1..], n - 1);
      assert s[..n][1..] == s[1..][..n - 1];
    }
  }

  lemma SpaceSuffix(s: string, n: nat)
    requires n <= |s|
    requires forall k :: n <= k < |s| ==> IsSpace(s[k])
    ensures AllSpace(s[n..])
  {
    SpacePrefix(s[n..], |s| - n);
    assert s[n..][..|s| - n] == s[n..];
  }

  /** strings.TrimRight(s, cutset): drops every trailing character found in `cutset`. */
  function TrimRight(s: string, cutset: string): string
    decreases |s|
  {
    if s != [] && s[|s| - 1] in cutset then TrimRight(s[..|s| - 1], cutset) else s
  }

  /** TrimRight keeps a prefix of `s`, drops only characters of the cutset,
      and leaves no character of the cutset at the end. */
  lemma {:induction false} TrimRightRemovesOnlyCutset(s: string, cutset: string)
    ensures var r := TrimRight(s, cutset);
      && |r| <= |s| && r == s[..|r|]
      && (forall k :: |r| <= k < |s| ==> s[k] in cutset)
      && (r == [] || r[|r| - 1] !in cutset)
    decreases |s|
  {
    if s != [] && s[|s| - 1] in cutset {
      var n := |s| - 1;
      TrimRightRemovesOnlyCutset(s[..n], cutset);
      var r := TrimRight(s, cutset);
      assert s[..n][..|r|] == s[..|r|];
      assert forall k :: |r| <= k < n ==> s[..n][k] == s[k];
    }
  }

  // ---------------------------------------------------------------------------
  // strconv.Atoi, strconv.FormatBool and the `%d` verb

  predicate IsDigit(c: char) {
    '0' <= c <= '9'
  }

  predicate AllDigits(s: string) {
    forall k :: 0 <= k < |s| ==> IsDigit(s[k])
  }

  /** The value of a string of decimal digits. */
  function DecimalValue(ds: string): nat
    requires AllDigits(ds)
    decreases |ds|
  {
    if ds == [] then 0
    else DecimalValue(ds[..|ds| - 1]) * 10 + ((ds[|ds| - 1] as int) - ('0' as int))
  }

  /** strconv.Atoi on a 64-bit platform: an optional sign, then one or more
      decimal digits, whose value must fit in an int64 (otherwise ErrRange). */
  function Atoi(s: string): (r: Option<int>)
    ensures r.Some? ==> MIN_INT64 <= r.value <= MAX_INT64
    ensures r.Some? ==> s != [] && (IsDigit(s[0]) || s[0] == '+' || s[0] == '-')
  {
    var signed := s != [] && (s[0] == '+' || s[0] == '-');
    var digits := if signed then s[1..] else s;
    if digits == [] || !AllDigits(digits) then None
    else
      var magnitude: int := DecimalValue(digits);
      var v := if signed && s[0] == '-' then -magnitude else magnitude;
      if MIN_INT64 <= v <= MAX_INT64 then Some(v) else None
  }

  function DigitChar(d: nat): char
    requires d < 10
  {
    (('0' as int) + d) as char
  }

  /** The decimal digits of `n`, most significant first, without leading zeros. */
  function NatDigits(n: nat): (ds: string)
    ensures |ds| >= 1 && AllDigits(ds)
    decreases n
  {
    if n < 10 then [DigitChar(n)] else NatDigits(n / 10) + [DigitChar(n % 10)]
  }

  /** fmt's `%d` (and strconv.Itoa) on an integer. */
  function FormatInt(n: int): string {
    if n < 0 then "-" + NatDigits(-n) else NatDigits(n)
  }

  /** strconv.FormatBool. */
  function FormatBool(b: bool): string {
    if b then "true" else "false"
  }

  lemma {:induction false} DecimalValueOfNatDigits(n: nat)
    ensures DecimalValue(NatDigits(n)) == n
    decreases n
  {
    if n >= 10 {
      DecimalValueOfNatDigits(n / 10);
      var ds := NatDigits(n);
      assert ds[..|ds| - 1] == NatDigits(n / 10);
    }
  }

  /** Atoi reads back what `%d` writes, for every int64. */
  lemma AtoiFormatInt(n: int)
    requires MIN_INT64 <= n <= MAX_INT64
    ensures Atoi(FormatInt(n)) == Some(n)
  {
    var s := FormatInt(n);
    if n < 0 {
      DecimalValueOfNatDigits(-n);
      assert s[1..] == NatDigits(-n);
    } else {
      DecimalValueOfNatDigits(n);
    }
  }

  predicate AllZeros(s: string) {
    forall k :: 0 <= k < |s| ==> s[k] == '0'
  }

  /** A non-empty digit string is some leading zeros followed by the digits
      of its value. */
  lemma {:induction false} DigitsOfDecimalValue(ds: string) returns (zeros: string)
    requires ds != [] && AllDigits(ds)
    ensures AllZeros(zeros) && ds == zeros + NatDigits(DecimalValue(ds))
    decreases |ds|
  {
    var n := |ds| - 1;
    var front := ds[..n];
    var c := ds[n];
    var d := (c as int) - ('0' as int);
    assert DigitChar(d) == c;
    if n == 0 {
      zeros := "";
      assert ds == [c];
    } else {
      assert AllDigits(front);
      var z := DigitsOfDecimalValue(front);
      var w := DecimalValue(front);
      assert DecimalValue(ds) == w * 10 + d;
      assert ds == front + [c];
      if w == 0 {
        zeros := z + "0";
        assert NatDigits(DecimalValue(ds)) == [c];
      } else {
        zeros := z;
        assert (w * 10 + d) / 10 == w && (w * 10 + d) % 10 == d;
        assert NatDigits(DecimalValue(ds)) == NatDigits(w) + [c];
      }
    }
  }

  /** Atoi accepts only `%d`'s own shape: an optional sign, leading zeros
      and the decimal digits of the value, with a minus sign for every
      negative value. */
  lemma AtoiReadsDigits(s: string) returns (sign: string, zeros: string)
    requires Atoi(s).Some?
    ensures sign == "" || sign == "+" || sign == "-"
    ensures AllZeros(zeros)
    ensures var v := Atoi(s).value;
      && s == sign + zeros + NatDigits(if v < 0 then -v else v)
      && (v < 0 ==> sign == "-")
      && (sign == "-" ==> v <= 0)
  {
    var signed := s[0] == '+' || s[0] == '-';
    var digits := if signed then s[1..] else s;
    sign := if signed then s[..1] else "";
    assert s == sign + digits;
    var m := DecimalValue(digits);
    var v := Atoi(s).value;
    assert v == (if signed && s[0] == '-' then -(m as int) else m as int);
    zeros := DigitsOfDecimalValue(digits);
    SignedDigits(s, sign, zeros, NatDigits(m));
  }

  /** Conversely, Atoi accepts every optional sign followed by one or more
      decimal digits (leading zeros included) whose signed value fits in an
      int64, and reads that value. */
  lemma AtoiAcceptsDigits(sign: string, ds: string)
    requires sign == "" || sign == "+" || sign == "-"
    requires ds != [] && AllDigits(ds)
    requires MIN_INT64 <= (if sign == "-" then -(DecimalValue(ds) as int) else DecimalValue(ds)) <= MAX_INT64
    ensures Atoi(sign + ds) == Some(if sign == "-" then -(DecimalValue(ds) as int) else DecimalValue(ds))
  {
    var s := sign + ds;
    if sign == "" {
      assert s == ds;
      assert !(IsDigit('+') || IsDigit('-'));
      assert s[0] != '+' && s[0] != '-';
    } else {
      assert s[0] == sign[0] && s[1..] == ds;
    }
  }

  lemma SignedDigits(s: string, sign: string, zeros: string, ds: string)
    requires s == sign + (zeros + ds)
    ensures s == sign + zeros + ds
  {
  }

  /** `%d` writes only digits and a leading minus sign. */
  lemma FormatIntCharacters(n: int)
    ensures forall k :: 0 <= k < |FormatInt(n)| ==> IsDigit(FormatInt(n)[k]) || FormatInt(n)[k] == '-'
  {
    if n < 0 {
      var ds := NatDigits(-n);
      assert forall k :: 1 <= k < |FormatInt(n)| ==> FormatInt(n)[k] == ds[k - 1];
    }
  }
}
