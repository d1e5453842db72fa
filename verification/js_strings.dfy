/** The few JavaScript string primitives the relay bot relies on:
    `String.prototype.split` with a one-character separator, `trim`,
    `includes`, and `Number.prototype.toString` for integral numbers. */
module JsStrings {

  /** WhiteSpace and LineTerminator code points of ECMAScript, the set that
      `String.prototype.trim` strips from both ends. */
  predicate IsSpace(c: char) {
    || c == '\t' || c == '\n' || c == '\U{B}' || c == '\U{C}' || c == '\r' || c == ' '
    || c == '\U{A0}' || c == '\U{1680}' || ('\U{2000}' <= c <= '\U{200A}')
    || c == '\U{2028}' || c == '\U{2029}' || c == '\U{202F}' || c == '\U{205F}'
    || c == '\U{3000}' || c == '\U{FEFF}'
  }

  ghost predicate AllSpace(s: string) {
    forall i :: 0 <= i < |s| ==> IsSpace(s[i])
  }

  /** Neither end of `s` is white space. */
  predicate IsTrimmed(s: string) {
    s == [] || (!IsSpace(s[0]) && !IsSpace(s[|s| - 1]))
  }

  /** `String.prototype.trim`: `s` with the white space at both ends cut
      off. */
  function Trim(s: string): (r: string)
    ensures IsTrimmed(r)
    ensures r == [] <==> AllSpace(s)
    ensures IsTrimmed(s) ==> r == s
    decreases |s|
  {
    if |s| == 0 then s
    else if IsSpace(s[0]) then
      assert AllSpace(s) <==> AllSpace(s[1..]) by {
        assert forall i :: 0 < i < |s| ==> s[i] == s[1..][i - 1];
      }
      Trim(s[1..])
    else if IsSpace(s[|s| - 1]) then
      assert AllSpace(s) <==> AllSpace(s[..|s| - 1]) by {
        assert forall i :: 0 <= i < |s| - 1 ==> s[i] == s[..|s| - 1][i];
      }
      Trim(s[..|s| - 1])
    else s
  }

  /** What `Trim` keeps is a slice of its argument, and what it cuts off on
      either side is white space. */
  lemma {:induction false} TrimIsSlice(s: string)
    ensures exists i, j :: 0 <= i <= j <= |s| && Trim(s) == s[i..j] && AllSpace(s[..i]) && AllSpace(s[j..])
    decreases |s|
  {
    if |s| == 0 {
      assert Trim(s) == s[0..0] && AllSpace(s[..0]) && AllSpace(s[0..]);
    } else if IsSpace(s[0]) {
      var t := s[1..];
      TrimIsSlice(t);
      var i, j :| 0 <= i <= j <= |t| && Trim(t) == t[i..j] && AllSpace(t[..i]) && AllSpace(t[j..]);
      SliceAfterLeadingSpace(s, i, j);
      assert Trim(s) == s[i + 1..j + 1];
    } else if IsSpace(s[|s| - 1]) {
      var t := s[..|s| - 1];
      TrimIsSlice(t);
      var i, j :| 0 <= i <= j <= |t| && Trim(t) == t[i..j] && AllSpace(t[..i]) && AllSpace(t[j..]);
      SliceBeforeTrailingSpace(s, i, j);
      assert Trim(s) == s[i..j];
    } else {
      assert Trim(s) == s[0..|s|] && AllSpace(s[..0]) && AllSpace(s[|s|..]);
    }
  }

  lemma SliceAfterLeadingSpace(s: string, i: nat, j: nat)
    requires |s| > 0 && IsSpace(s[0]) && i <= j <= |s| - 1
    requires AllSpace(s[1..][..i]) && AllSpace(s[1..][j..])
    ensures s[1..][i..j] == s[i + 1..j + 1]
    ensures AllSpace(s[..i + 1]) && AllSpace(s[j + 1..])
  {
    assert s[..i + 1] == [s[0]] + s[1..][..i];
    assert s[j + 1..] == s[1..][j..];
  }

  lemma SliceBeforeTrailingSpace(s: string, i: nat, j: nat)
    requires |s| > 0 && IsSpace(s[|s| - 1]) && i <= j <= |s| - 1
    requires AllSpace(s[..|s| - 1][..i]) && AllSpace(s[..|s| - 1][j..])
    ensures s[..|s| - 1][i..j] == s[i..j]
    ensures AllSpace(s[..i]) && AllSpace(s[j..])
  {
    assert s[..i] == s[..|s| - 1][..i];
    assert s[j..] == s[..|s| - 1][j..] + [s[|s| - 1]];
  }

  /** Every character `Trim` keeps comes from its argument. */
  lemma TrimKeepsChars(s: string)
    ensures forall c <- Trim(s) :: c in s
  {
    TrimIsSlice(s);
    var i, j :| 0 <= i <= j <= |s| && Trim(s) == s[i..j];
    assert forall c <- s[i..j] :: c in s;
  }

  /** `s.split(sep)` for a one-character separator: the pieces between
      occurrences of `sep`; there is always at least one piece, possibly
      empty. */
  function Split(s: string, sep: char): (r: seq<string>)
    ensures |r| >= 1
    ensures forall p <- r :: sep !in p
    decreases |s|
  {
    if |s| == 0 then [""]
    else
      var rest := Split(s[1..], sep);
      if s[0] == sep then [""] + rest
      else [[s[0]] + rest[0]] + rest[1..]
  }

  /** Every character of every piece comes from the text that was split. */
  lemma {:induction false} SplitKeepsChars(s: string, sep: char)
    ensures forall p <- Split(s, sep), c <- p :: c in s
    decreases |s|
  {
    if |s| > 0 {
      SplitKeepsChars(s[1..], sep);
      assert forall c <- s[1..] :: c in s;
    }
  }

  /** `ps.join(sep)` for a one-character separator. */
  function Join(ps: seq<string>, sep: char): string
    decreases |ps|
  {
    if |ps| == 0 then ""
    else if |ps| == 1 then ps[0]
    else ps[0] + [sep] + Join(ps[1..], sep)
  }

  /** Joining the pieces again restores the text that was split. */
  lemma {:induction false} JoinSplit(s: string, sep: char)
    ensures Join(Split(s, sep), sep) == s
    decreases |s|
  {
    if |s| > 0 {
      var rest := Split(s[1..], sep);
      JoinSplit(s[1..], sep);
      if s[0] != sep {
        if |rest| == 1 {
          assert Split(s, sep) == [[s[0]] + rest[0]];
        } else {
          assert Split(s, sep) == [[s[0]] + rest[0]] + rest[1..];
          assert Split(s, sep)[1..] == rest[1..];
          assert Join(rest, sep) == rest[0] + [sep] + Join(rest[1..], sep);
        }
      } else {
        assert Split(s, sep) == [""] + rest;
        assert Split(s, sep)[1..] == rest;
      }
    }
  }

  /** Splitting a join of separator-free pieces gives the pieces back. */
  lemma {:induction false} SplitJoin(ps: seq<string>, sep: char)
    requires |ps| >= 1
    requires forall p <- ps :: sep !in p
    ensures Split(Join(ps, sep), sep) == ps
    decreases |ps|, |ps[0]|
  {
    if |ps| == 1 {
      SplitPlain(ps[0], sep);
    } else if ps[0] == [] {
      var tail := ps[1..];
      assert Join(ps, sep) == [sep] + Join(tail, sep);
      SplitJoin(tail, sep);
      SplitAtSep(Join(tail, sep), sep);
      assert ps == [""] + tail;
    } else {
      var ps' := [ps[0][1..]] + ps[1..];
      assert ps[0][0] != sep by {
        assert ps[0][0] in ps[0];
      }
      assert forall p <- ps' :: sep !in p by {
        assert forall x :: x in ps[0][1..] ==> x in ps[0];
        assert ps'[1..] == ps[1..];
      }
      SplitJoin(ps', sep);
      SplitJoinCons(ps, sep);
    }
  }

  /** The step of `SplitJoin` for a non-empty first piece: peeling its first
      character off keeps the round trip. */
  lemma SplitJoinCons(ps: seq<string>, sep: char)
    requires |ps| >= 2 && ps[0] != [] && ps[0][0] != sep
    requires Split(Join([ps[0][1..]] + ps[1..], sep), sep) == [ps[0][1..]] + ps[1..]
    ensures Split(Join(ps, sep), sep) == ps
  {
    var c := ps[0][0];
    var ps' := [ps[0][1..]] + ps[1..];
    assert ps'[1..] == ps[1..];
    assert Join(ps, sep) == [c] + Join(ps', sep);
    SplitAtOther(c, Join(ps', sep), sep);
    assert [c] + ps'[0] == ps[0];
  }

  /** A leading separator closes an empty first piece. */
  lemma SplitAtSep(t: string, sep: char)
    ensures Split([sep] + t, sep) == [""] + Split(t, sep)
  {
    assert ([sep] + t)[1..] == t;
  }

  /** A leading non-separator joins the first piece of the rest. */
  lemma SplitAtOther(c: char, t: string, sep: char)
    requires c != sep
    ensures Split([c] + t, sep) == [[c] + Split(t, sep)[0]] + Split(t, sep)[1..]
  {
    assert ([c] + t)[1..] == t;
  }

  /** A text without the separator is one piece. */
  lemma {:induction false} SplitPlain(s: string, sep: char)
    requires sep !in s
    ensures Split(s, sep) == [s]
    decreases |s|
  {
    if |s| > 0 {
      assert s[0] in s;
      assert forall c :: c in s[1..] ==> c in s;
      SplitPlain(s[1..], sep);
      assert [s[0]] + s[1..] == s;
    }
  }

  /** `text.includes(kw)`: `kw` occurs as a contiguous, case-sensitive
      substring of `text`; the empty string occurs in every text. */
  predicate Contains(text: string, kw: string)
    ensures Contains(text, kw) ==> |kw| <= |text|
    ensures kw == [] ==> Contains(text, kw)
  {
    assert kw == [] ==> OccursAt(text, kw, 0);
    exists i :: 0 <= i <= |text| - |kw| && OccursAt(text, kw, i)
  }

  /** A text includes every string it can be cut around. */
  lemma ContainsInfix(a: string, kw: string, b: string)
    ensures Contains(a + kw + b, kw)
  {
    var text := a + kw + b;
    assert text[|a|..|a| + |kw|] == kw;
    assert OccursAt(text, kw, |a|);
  }

  /** Conversely, a text that includes `kw` is cut around it. */
  lemma ContainsIsInfix(text: string, kw: string)
    requires Contains(text, kw)
    ensures exists a, b :: text == a + kw + b
  {
    var i :| 0 <= i <= |text| - |kw| && OccursAt(text, kw, i);
    assert text == text[..i] + kw + text[i + |kw|..];
  }

  /** `kw` appears in `text` starting at index `i`. */
  predicate OccursAt(text: string, kw: string, i: int) {
    0 <= i <= |text| - |kw| && text[i..i + |kw|] == kw
  }

  function DigitChar(d: nat): (c: char)
    requires d < 10
    ensures '0' <= c <= '9'
  {
    ('0' as int + d) as char
  }

  function DigitValue(c: char): (d: nat)
    requires '0' <= c <= '9'
    ensures d < 10
  {
    c as int - '0' as int
  }

  ghost predicate AllDigits(s: string) {
    forall i :: 0 <= i < |s| ==> '0' <= s[i] <= '9'
  }

  /** Decimal digits of a natural number, most significant first, with no
      leading zero. */
  function NatToString(n: nat): (r: string)
    ensures |r| >= 1 && AllDigits(r)
    ensures r[0] == '0' ==> n == 0
    decreases n
  {
    if n < 10 then [DigitChar(n)] else NatToString(n / 10) + [DigitChar(n % 10)]
  }

  /** `n.toString()` for an integral JavaScript number. */
  function NumberToString(n: int): (r: string)
    ensures |r| >= 1
    ensures r[0] == '-' || '0' <= r[0] <= '9'
    ensures r[0] == '-' <==> n < 0
  {
    if n < 0 then "-" + NatToString(-n) else NatToString(n)
  }

  function ParseDigits(s: string): nat
    requires AllDigits(s)
    decreases |s|
  {
    if |s| == 0 then 0 else ParseDigits(s[..|s| - 1]) * 10 + DigitValue(s[|s| - 1])
  }

  /** Reading the digits back yields the number. */
  lemma {:induction false} ParseNatToString(n: nat)
    ensures ParseDigits(NatToString(n)) == n
    decreases n
  {
    if n >= 10 {
      var r := NatToString(n);
      ParseNatToString(n / 10);
      assert r[..|r| - 1] == NatToString(n / 10);
    }
  }

  /** `toString` renders an integer as an optional `-` followed by the
      canonical decimal digits of its magnitude. */
  lemma NumberToStringIsDecimal(n: int)
    ensures var r := NumberToString(n);
            var d := if n < 0 then r[1..] else r;
            |d| >= 1 && AllDigits(d) && ParseDigits(d) == (if n < 0 then -n else n)
            && (d[0] == '0' ==> n == 0)
  {
    ParseNatToString(if n < 0 then -n else n);
  }

  /** Distinct natural numbers have distinct digit strings. */
  lemma NatToStringInjective(a: nat, b: nat)
    ensures NatToString(a) == NatToString(b) ==> a == b
  {
    ParseNatToString(a);
    ParseNatToString(b);
  }

  /** Distinct numbers have distinct decimal renderings. */
  lemma NumberToStringInjective(a: int, b: int)
    ensures NumberToString(a) == NumberToString(b) ==> a == b
  {
    if NumberToString(a) == NumberToString(b) {
      if a < 0 {
        assert b < 0;
        assert NumberToString(a)[1..] == NatToString(-a);
        assert NumberToString(b)[1..] == NatToString(-b);
        NatToStringInjective(-a, -b);
      } else {
        assert b >= 0;
        NatToStringInjective(a, b);
      }
    }
  }
}
