/** The auto-reply keyword matcher of the relay bot: the keyword file is cut
    into lines, each non-blank line into `|`-separated keywords, and the
    auto-reply fires when the visitor's text includes one of the keywords. */
module Keywords {
  import opened JsStrings

  /** `file.split(/\r?\n/)`: the pieces between line breaks, where a line
      break is LF or CR LF. */
  function Lines(file: string): (r: seq<string>)
    ensures |r| >= 1
    ensures forall p <- r :: '\n' !in p
    decreases |file|
  {
    if |file| == 0 then [""]
    else if file[0] == '\n' then [""] + Lines(file[1..])
    else if |file| >= 2 && file[0] == '\r' && file[1] == '\n' then [""] + Lines(file[2..])
    else
      var rest := Lines(file[1..]);
      [[file[0]] + rest[0]] + rest[1..]
  }

  /** Every character of every line comes from the file. */
  lemma {:induction false} LinesKeepChars(file: string)
    ensures forall p <- Lines(file), c <- p :: c in file
    decreases |file|
  {
    if |file| > 0 {
      if file[0] == '\n' {
        LinesKeepChars(file[1..]);
        assert forall c <- file[1..] :: c in file;
      } else if |file| >= 2 && file[0] == '\r' && file[1] == '\n' {
        LinesKeepChars(file[2..]);
        assert forall c <- file[2..] :: c in file;
      } else {
        LinesKeepChars(file[1..]);
        assert forall c <- file[1..] :: c in file;
      }
    }
  }

  /** For a file with LF line ends only, the lines are exactly the pieces
      between the LFs. */
  lemma {:induction false} LinesWithoutCR(file: string)
    requires '\r' !in file
    ensures Lines(file) == Split(file, '\n')
    decreases |file|
  {
    if |file| > 0 {
      assert forall c :: c in file[1..] ==> c in file;
      LinesWithoutCR(file[1..]);
    }
  }

  /** A line piece with the CR of a CR LF line end cut off. */
  function DropCR(p: string): string {
    if p != [] && p[|p| - 1] == '\r' then p[..|p| - 1] else p
  }

  /** `lines` are the pieces `pieces` of a split on LF with the CR of every
      CR LF line end cut off: the same number of pieces, every piece but the
      last without its trailing CR, the last piece as it is. */
  ghost predicate CutAtLineEnds(lines: seq<string>, pieces: seq<string>) {
    && |lines| == |pieces| >= 1
    && (forall i :: 0 <= i < |lines| - 1 ==> lines[i] == DropCR(pieces[i]))
    && lines[|lines| - 1] == pieces[|pieces| - 1]
  }

  /** `split(/\r?\n/)` against a split on LF alone: only the CR right before
      an LF goes; a CR that is not followed by LF stays in its line. */
  lemma {:induction false} LinesAreSplitWithoutCR(file: string)
    ensures CutAtLineEnds(Lines(file), Split(file, '\n'))
    decreases |file|
  {
    if |file| == 0 {
    } else if file[0] == '\n' {
      LinesAreSplitWithoutCR(file[1..]);
      SplitAtSep(file[1..], '\n');
      assert [file[0]] + file[1..] == file;
      CutAtLineEndsAfterEmpty("", Lines(file[1..]), Split(file[1..], '\n'));
    } else if |file| >= 2 && file[0] == '\r' && file[1] == '\n' {
      var t := file[2..];
      LinesAreSplitWithoutCR(t);
      assert file[1..] == ['\n'] + t;
      SplitAtSep(t, '\n');
      SplitAtOther('\r', file[1..], '\n');
      assert [file[0]] + file[1..] == file;
      var rest := Split(file[1..], '\n');
      assert rest == [""] + Split(t, '\n');
      assert rest[0] == "" && rest[1..] == Split(t, '\n');
      assert ['\r'] + rest[0] == "\r";
      assert Split(file, '\n') == ["\r"] + Split(t, '\n');
      CutAtLineEndsAfterEmpty("\r", Lines(t), Split(t, '\n'));
    } else {
      var c := file[0];
      var t := file[1..];
      LinesAreSplitWithoutCR(t);
      SplitAtOther(c, t, '\n');
      assert [c] + t == file;
      if |Split(t, '\n')| > 1 && Split(t, '\n')[0] == [] {
        SplitEmptyHead(t, '\n');
      }
      CutAtLineEndsCons(c, Lines(t), Split(t, '\n'));
    }
  }

  /** A line break in front: one more empty line, for a piece that is empty
      or a lone CR. */
  lemma CutAtLineEndsAfterEmpty(p: string, lines: seq<string>, pieces: seq<string>)
    requires p == "" || p == "\r"
    requires CutAtLineEnds(lines, pieces)
    ensures CutAtLineEnds([""] + lines, [p] + pieces)
  {
    assert DropCR(p) == "";
  }

  /** A character other than a line break in front joins the first line. */
  lemma CutAtLineEndsCons(c: char, lines: seq<string>, pieces: seq<string>)
    requires CutAtLineEnds(lines, pieces)
    requires c == '\r' ==> |pieces| == 1 || pieces[0] != []
    ensures CutAtLineEnds([[c] + lines[0]] + lines[1..], [[c] + pieces[0]] + pieces[1..])
  {
    if |pieces| > 1 {
      DropCRCons(c, pieces[0]);
    }
  }

  lemma DropCRCons(c: char, p: string)
    requires p != [] || c != '\r'
    ensures DropCR([c] + p) == [c] + DropCR(p)
  {
    if p != [] {
      assert ([c] + p)[..|p|] == [c] + p[..|p| - 1];
    }
  }

  /** An empty first piece followed by more pieces means the text starts
      with the separator. */
  lemma SplitEmptyHead(t: string, sep: char)
    requires |Split(t, sep)| > 1 && Split(t, sep)[0] == []
    ensures |t| > 0 && t[0] == sep
  {
  }

  /** `.map(x => x.trim()).filter(x => x)`: every piece trimmed, the empty
      results dropped, order kept (`TrimNonEmptyAppend`). */
  function TrimNonEmpty(ps: seq<string>): (r: seq<string>)
    ensures |r| <= |ps|
    ensures forall x <- r :: x != "" && IsTrimmed(x)
    ensures forall p {:trigger Trim(p)} :: p in ps && Trim(p) != "" ==> Trim(p) in r
    decreases |ps|
  {
    if |ps| == 0 then []
    else
      var t := Trim(ps[0]);
      var rest := TrimNonEmpty(ps[1..]);
      assert forall p <- ps :: p == ps[0] || p in ps[1..];
      (if t == "" then [] else [t]) + rest
  }

  /** Filtering works piece by piece, so the kept pieces stay in input order. */
  lemma {:induction false} TrimNonEmptyAppend(a: seq<string>, b: seq<string>)
    ensures TrimNonEmpty(a + b) == TrimNonEmpty(a) + TrimNonEmpty(b)
    decreases |a|
  {
    if |a| > 0 {
      assert (a + b)[0] == a[0];
      assert (a + b)[1..] == a[1..] + b;
      TrimNonEmptyAppend(a[1..], b);
    } else {
      assert a + b == b;
    }
  }

  /** Every piece `TrimNonEmpty` keeps is the trimmed form of an input piece. */
  lemma {:induction false} TrimNonEmptyKeepsOnlyTrimmed(ps: seq<string>)
    ensures forall x <- TrimNonEmpty(ps) :: exists p <- ps :: Trim(p) == x
    decreases |ps|
  {
    if |ps| > 0 {
      var rest := TrimNonEmpty(ps[1..]);
      TrimNonEmptyKeepsOnlyTrimmed(ps[1..]);
      assert TrimNonEmpty(ps) == (if Trim(ps[0]) == "" then [] else [Trim(ps[0])]) + rest;
      forall x <- TrimNonEmpty(ps)
        ensures exists p <- ps :: Trim(p) == x
      {
        if x in rest {
          var p :| p in ps[1..] && Trim(p) == x;
          assert p in ps;
        } else {
          assert ps[0] in ps;
        }
      }
    }
  }

  /** Pieces that are all blank once trimmed leave nothing behind. */
  lemma {:induction false} TrimNonEmptyOfBlanks(ps: seq<string>)
    requires forall p <- ps :: Trim(p) == ""
    ensures TrimNonEmpty(ps) == []
    decreases |ps|
  {
    if |ps| > 0 {
      assert forall p <- ps[1..] :: p in ps;
      TrimNonEmptyOfBlanks(ps[1..]);
      assert ps[0] in ps;
    }
  }

  /** The non-blank keyword lines, trimmed (worker.js lines 140-143). */
  function KeywordLines(file: string): seq<string> {
    TrimNonEmpty(Lines(file))
  }

  /** The non-empty keywords of one line, trimmed (worker.js line 151). */
  function LineKeywords(line: string): seq<string> {
    TrimNonEmpty(Split(line, '|'))
  }

  /** `keywords.some(kw => text.includes(kw))` */
  predicate AnyIncluded(text: string, keywords: seq<string>) {
    exists kw <- keywords :: Contains(text, kw)
  }

  /** Reference definition of a keyword hit, stated on the raw pieces of the
      file: some line that is not blank once trimmed has a `|`-separated
      piece that is not empty once trimmed and that the text includes. */
  ghost predicate KeywordHit(text: string, file: string) {
    exists p, q :: p in Lines(file) && Trim(p) != "" && q in Split(Trim(p), '|')
                 && Trim(q) != "" && Contains(text, Trim(q))
  }

  /** Whether the auto-reply is sent for `text` given the keyword file. */
  predicate Triggered(text: string, file: string) {
    exists line <- KeywordLines(file) :: LineHit(text, line)
  }

  /** Some keyword of `line` occurs in `text`. */
  predicate LineHit(text: string, line: string) {
    AnyIncluded(text, LineKeywords(line))
  }

  /** The filtered matcher agrees with the reference definition, in both
      directions. */
  lemma TriggeredIffKeywordHit(text: string, file: string)
    ensures Triggered(text, file) <==> KeywordHit(text, file)
  {
    var lines := KeywordLines(file);
    if Triggered(text, file) {
      TrimNonEmptyKeepsOnlyTrimmed(Lines(file));
      var line :| line in lines && LineHit(text, line);
      var kw :| kw in LineKeywords(line) && Contains(text, kw);
      TrimNonEmptyKeepsOnlyTrimmed(Split(line, '|'));
      var p :| p in Lines(file) && Trim(p) == line;
      var q :| q in Split(line, '|') && Trim(q) == kw;
      assert KeywordHit(text, file);
    }
    if KeywordHit(text, file) {
      var p, q :| p in Lines(file) && Trim(p) != "" && q in Split(Trim(p), '|')
                  && Trim(q) != "" && Contains(text, Trim(q));
      var line := Trim(p);
      assert line in lines;
      assert Trim(q) in LineKeywords(line);
      assert LineHit(text, line);
    }
  }

  /** The `some` call of worker.js line 152 as a scan that stops at the first
      keyword the text includes. */
  method SomeIncluded(text: string, keywords: seq<string>) returns (hit: bool)
    ensures hit <==> AnyIncluded(text, keywords)
  {
    var j := 0;
    while j < |keywords|
      invariant 0 <= j <= |keywords|
      invariant forall k :: 0 <= k < j ==> !Contains(text, keywords[k])
    {
      if Contains(text, keywords[j]) {
        return true;
      }
      j := j + 1;
    }
    return false;
  }

  /** worker.js lines 149-156: walk the keyword lines in order and stop at the first
      one with a keyword the text includes. */
  method ScanLines(text: string, lines: seq<string>) returns (triggered: bool)
    ensures triggered <==> exists line <- lines :: LineHit(text, line)
  {
    triggered := false;
    var i := 0;
    while i < |lines|
      invariant 0 <= i <= |lines|
      invariant forall k :: 0 <= k < i ==> !LineHit(text, lines[k])
    {
      var hit := SomeIncluded(text, LineKeywords(lines[i]));
      if hit {
        assert lines[i] in lines;
        return true;
      }
      NoHitUpTo(text, lines, i);
      i := i + 1;
    }
  }

  /** The scan's invariant extends past a line without an included keyword. */
  lemma NoHitUpTo(text: string, lines: seq<string>, i: nat)
    requires i < |lines|
    requires forall k :: 0 <= k < i ==> !LineHit(text, lines[k])
    requires !AnyIncluded(text, LineKeywords(lines[i]))
    ensures forall k :: 0 <= k < i + 1 ==> !LineHit(text, lines[k])
  {
  }

  /** The auto-reply decision for a text and a keyword file: true iff the
      reference definition of a keyword hit holds. */
  method AutoReplyTriggered(text: string, file: string) returns (triggered: bool)
    ensures triggered <==> KeywordHit(text, file)
  {
    triggered := ScanLines(text, KeywordLines(file));
    TriggeredIffKeywordHit(text, file);
  }

  /** A line made only of white space and `|` yields no keyword: `|`, `a||b`
      minus its letters, and blank lines contribute nothing. */
  lemma NoKeywordsInBlankLine(line: string)
    requires forall c <- line :: IsSpace(c) || c == '|'
    ensures LineKeywords(line) == []
  {
    var pieces := Split(line, '|');
    SplitKeepsChars(line, '|');
    forall q <- pieces
      ensures Trim(q) == ""
    {
      assert forall c <- q :: c in line && c != '|';
    }
    TrimNonEmptyOfBlanks(pieces);
  }

  /** A keyword file of white space and `|` characters only never triggers
      the auto-reply, whatever the text. */
  lemma BlankFileNeverTriggers(text: string, file: string)
    requires forall c <- file :: IsSpace(c) || c == '|'
    ensures !Triggered(text, file)
  {
    LinesKeepChars(file);
    TrimNonEmptyKeepsOnlyTrimmed(Lines(file));
    forall line <- KeywordLines(file)
      ensures LineKeywords(line) == []
    {
      var p :| p in Lines(file) && Trim(p) == line;
      TrimKeepsChars(p);
      NoKeywordsInBlankLine(line);
    }
  }

  /** A file without line breaks is a single line. */
  lemma SingleLine(file: string)
    requires '\r' !in file && '\n' !in file
    ensures Lines(file) == [file]
  {
    LinesWithoutCR(file);
    SplitPlain(file, '\n');
  }

  lemma SplitFooBar()
    ensures Split("foo|bar", '|') == ["foo", "bar"]
  {
    assert Join(["foo", "bar"], '|') == "foo|bar";
    SplitJoin(["foo", "bar"], '|');
  }

  /** A line `foo|bar` fires on any text that includes `foo`. */
  lemma PipeSeparatedExample(text: string)
    requires Contains(text, "foo")
    ensures Triggered(text, "foo|bar")
  {
    var file := "foo|bar";
    FooBarIsOneTrimmedLine();
    SplitFooBar();
    FooIsTrimmed();
    HitWitness(text, file, file, "foo");
    TriggeredIffKeywordHit(text, file);
  }

  /** The witness for the example: `say foo now` includes `foo`. */
  lemma FooInSentence()
    ensures Triggered("say foo now", "foo|bar")
  {
    var text := "say foo now";
    assert text[4] == 'f' && text[5] == 'o' && text[6] == 'o';
    assert text[4..7] == "foo";
    assert OccursAt(text, "foo", 4);
    PipeSeparatedExample(text);
  }

  lemma FooBarIsOneTrimmedLine()
    ensures Lines("foo|bar") == ["foo|bar"]
    ensures Trim("foo|bar") == "foo|bar"
  {
    SingleLine("foo|bar");
    assert IsTrimmed("foo|bar");
  }

  lemma FooIsTrimmed()
    ensures Trim("foo") == "foo"
  {
    assert IsTrimmed("foo");
  }

  /** A line and a token that meet every condition of `KeywordHit`. */
  lemma HitWitness(text: string, file: string, p: string, q: string)
    requires p in Lines(file) && Trim(p) != ""
    requires q in Split(Trim(p), '|') && Trim(q) != ""
    requires Contains(text, Trim(q))
    ensures KeywordHit(text, file)
  {
  }

  /** Matching is case-sensitive: `FOO` does not include the keyword `foo`. */
  lemma CaseSensitiveExample()
    ensures !Triggered("FOO", "foo")
  {
    var file := "foo";
    assert '\r' !in file && '\n' !in file && '|' !in file;
    SingleLine(file);
    SplitPlain(file, '|');
    assert IsTrimmed(file);
    assert !OccursAt("FOO", "foo", 0);
    assert KeywordLines(file) == [file];
    assert LineKeywords(file) == [file];
  }
}
