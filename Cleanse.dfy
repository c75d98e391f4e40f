/**
  The poem-text normaliser `cleanse_text` of `src/gen_notes.py`: the lines of
  the poem editor go in (already split into lines), and the cleaned lines
  come out, blank lines gone, each stanza's last line carrying the
  end-of-stanza marker, the poem's last line the end-of-text marker, and
  indented lines wrapped in an indentation span.
*/
module Cleanse {
  import opened Wrappers
  import opened PyStr

  /** The two marker strings `cleanse_text` reads from the add-on configuration. */
  datatype MarkerConfig = MarkerConfig(endOfTextMarker: string, endOfStanzaMarker: string)

  /** Stands in for a line's leading indentation between the first and last steps. */
  const IndentSentinel: string := "<indent>"
  const IndentOpen: string := "<span class=\"indent\">"
  const IndentClose: string := "</span>"

  /** The characters of `[ \t]`. */
  predicate IsIndentChar(c: char) {
    c == ' ' || c == '\t'
  }

  /** No element of `t` has content. */
  predicate AllBlank(t: seq<string>) {
    forall i :: 0 <= i < |t| ==> IsBlank(t[i])
  }

  /** No two neighbouring elements of `t` are both blank. */
  predicate NoAdjacentBlanks(t: seq<string>) {
    forall i :: 0 <= i < |t| - 1 ==> !IsBlank(t[i]) || !IsBlank(t[i + 1])
  }

  // ---------------------------------------------------------------------
  // Per-line steps

  /** The length of the leading run matched by `^[ \t]+` (0 when there is none). */
  function IndentRun(s: string): (k: nat)
    ensures k <= |s|
    ensures forall i :: 0 <= i < k ==> IsIndentChar(s[i])
    ensures k < |s| ==> !IsIndentChar(s[k])
  {
    if |s| > 0 && IsIndentChar(s[0]) then 1 + IndentRun(s[1..]) else 0
  }

  /** `re.sub(r'^[ \t]+', '<indent>', line)`: a leading run of spaces and tabs, of any width, becomes the sentinel. */
  function ReplaceIndent(line: string): (r: string)
    ensures IndentRun(line) == 0 ==> r == line
    ensures IndentRun(line) > 0 ==> r == IndentSentinel + line[IndentRun(line)..]
  {
    var k := IndentRun(line);
    if k == 0 then line else IndentSentinel + line[k..]
  }

  /** The index of the first `#` in `s`, or `|s|` when there is none. */
  function HashIndex(s: string): (h: nat)
    ensures h <= |s|
    ensures forall i :: 0 <= i < h ==> s[i] != '#'
    ensures h < |s| ==> s[h] == '#'
  {
    if s == [] || s[0] == '#' then 0 else 1 + HashIndex(s[1..])
  }

  /**
    `re.sub(r'\s*\#.*$', '', s)` on a line without a line feed: the first `#`,
    the whitespace right before it and everything after it are removed.
  */
  function StripComment(s: string): (r: string)
    requires '\n' !in s
    ensures |r| <= |s| && r == s[..|r|]
    ensures '#' !in r
    ensures '#' !in s ==> r == s
    ensures '#' in s ==> var h := HashIndex(s);
      |r| <= h && IsBlank(s[|r|..h]) && (r == [] || !IsSpace(r[|r| - 1]))
  {
    var h := HashIndex(s);
    if h == |s| then s
    else
      var r := RStrip(s[..h]);
      assert s[..h][|r|..] == s[|r|..h];
      r
  }

  /**
    What the comprehensions at lines 227-230 make of one raw line: nothing when
    it begins with `#` in column 0, otherwise the line with its indentation
    marked, stripped, and its trailing comment removed.
  */
  function PrepareLine(line: string): (r: Option<string>)
    requires '\n' !in line
    ensures r.None? <==> StartsWith(line, "#")
  {
    var l := ReplaceIndent(line);
    assert StartsWith(l, "#") <==> StartsWith(line, "#") by {
      if IndentRun(line) > 0 { assert l[0] == '<'; }
    }
    if StartsWith(l, "#") then None
    else
      NoLineFeedAfterIndent(line);
      NoLineFeedAfterStrip(l);
      Some(StripComment(Strip(l)))
  }

  lemma NoLineFeedAfterIndent(line: string)
    requires '\n' !in line
    ensures '\n' !in ReplaceIndent(line)
  {
    var k := IndentRun(line);
    if k > 0 {
      assert ReplaceIndent(line) == IndentSentinel + line[k..];
      assert forall i :: 0 <= i < |line[k..]| ==> line[k..][i] == line[k + i];
    }
  }

  lemma NoLineFeedAfterStrip(l: string)
    requires '\n' !in l
    ensures '\n' !in Strip(l)
  {
    var s := Strip(l);
    var a := StripStart(l);
    assert forall i :: 0 <= i < |s| ==> s[i] == l[a + i];
  }

  /** Lines 227-230 over all lines: the survivors of the comment filter, in order. */
  function Prepare(lines: seq<string>): seq<string>
    requires forall i :: 0 <= i < |lines| ==> '\n' !in lines[i]
  {
    if lines == [] then []
    else
      (match PrepareLine(lines[0]) case None => [] case Some(p) => [p]) + Prepare(lines[1..])
  }

  /**
    `re.sub(r'^<indent>(.*)$', r'<span class="indent">\1</span>', s)`: the
    sentinel is turned into the indentation span around the rest of the line.
    `.` does not match a line feed and `$` also matches before a final one,
    which matters only when a marker holds a line feed.
  */
  function WrapIndent(s: string): (r: string)
    ensures !IsBlank(s) ==> !IsBlank(r)
  {
    if !StartsWith(s, IndentSentinel) then s
    else
      var rest := s[|IndentSentinel|..];
      if '\n' !in rest then
        assert (IndentOpen + rest + IndentClose)[0] == '<';
        IndentOpen + rest + IndentClose
      else if rest[|rest| - 1] == '\n' && '\n' !in rest[..|rest| - 1] then
        assert (IndentOpen + rest[..|rest| - 1] + IndentClose + "\n")[0] == '<';
        IndentOpen + rest[..|rest| - 1] + IndentClose + "\n"
      else s
  }

  // ---------------------------------------------------------------------
  // Blank-line normalisation (`_normalize_blank_lines`)

  /**
    The lines the first loop of `_normalize_blank_lines` keeps, given the
    line that preceded `lines`: a line is kept unless it and its predecessor
    are both blank.
  */
  function Collapse(lines: seq<string>, last: string): seq<string>
  {
    if lines == [] then []
    else
      (if !IsBlank(last) || !IsBlank(lines[0]) then [lines[0]] else [])
      + Collapse(lines[1..], lines[0])
  }

  /**
    `_normalize_blank_lines`: `None` where `new_text[i]` raises IndexError
    because nothing is left.
  */
  function Normalize(lines: seq<string>): Option<seq<string>>
  {
    var c := Collapse(lines, "");
    if c == [] then None
    else
      var c1 := if IsBlank(c[0]) then c[1..] else c;
      if c1 == [] then None
      else Some(if IsBlank(c1[|c1| - 1]) then c1[..|c1| - 1] else c1)
  }

  /** The first loop of `_normalize_blank_lines`: a line is kept unless it and the line before it are both blank. */
  method CollapseBlankRuns(textLines: seq<string>) returns (newText: seq<string>)
    ensures newText == Collapse(textLines, "")
  {
    newText := [];
    var lastLine := "";
    var i := 0;
    while i < |textLines|
      invariant 0 <= i <= |textLines|
      invariant lastLine == if i == 0 then "" else textLines[i - 1]
      invariant newText + Collapse(textLines[i..], lastLine) == Collapse(textLines, "")
    {
      var line := textLines[i];
      assert textLines[i..][0] == line && textLines[i..][1..] == textLines[i + 1..];
      if !IsBlank(lastLine) || !IsBlank(line) {
        newText := newText + [line];
      }
      lastLine := line;
      i := i + 1;
    }
    assert textLines[i..] == [];
  }

  /** `_normalize_blank_lines`: blank runs collapsed, then a blank line at either end deleted. */
  method NormalizeBlankLines(textLines: seq<string>) returns (r: Option<seq<string>>)
    ensures r == Normalize(textLines)
  {
    var newText := CollapseBlankRuns(textLines);
    if |newText| == 0 { return None; }
    if IsBlank(newText[0]) { newText := newText[1..]; }
    if |newText| == 0 { return None; }
    if IsBlank(newText[|newText| - 1]) { newText := newText[..|newText| - 1]; }
    return Some(newText);
  }

  // ---------------------------------------------------------------------
  // Markers, blank removal, indentation markup

  /** The marker the loop at lines 233-237 appends to entry `i` of `t`. */
  function MarkerAt(t: seq<string>, i: nat, cfg: MarkerConfig): string
    requires i < |t|
  {
    if i == |t| - 1 then cfg.endOfTextMarker
    else if IsBlank(t[i + 1]) then cfg.endOfStanzaMarker
    else ""
  }

  /** `t` after the marker loop: each entry followed by its marker. */
  function Marked(t: seq<string>, cfg: MarkerConfig): (r: seq<string>)
    ensures |r| == |t|
  {
    seq(|t|, i requires 0 <= i < |t| => t[i] + MarkerAt(t, i, cfg))
  }

  /** The marker loop, appending in place: `text[i] += marker`. */
  method AddMarkers(text: array<string>, cfg: MarkerConfig)
    modifies text
    ensures text[..] == Marked(old(text[..]), cfg)
  {
    ghost var t := text[..];
    for i := 0 to text.Length
      invariant forall k :: 0 <= k < i ==> text[k] == t[k] + MarkerAt(t, k, cfg)
      invariant forall k :: i <= k < text.Length ==> text[k] == t[k]
    {
      if i == text.Length - 1 {
        text[i] := text[i] + cfg.endOfTextMarker;
      } else if IsBlank(text[i + 1]) {
        text[i] := text[i] + cfg.endOfStanzaMarker;
      }
    }
  }

  /** `[i for i in t if i.strip()]`. */
  function DropBlank(t: seq<string>): (r: seq<string>)
    ensures forall i :: 0 <= i < |r| ==> !IsBlank(r[i])
  {
    if t == [] then [] else (if IsBlank(t[0]) then [] else [t[0]]) + DropBlank(t[1..])
  }

  /** The final comprehension: the indentation markup applied to every line. */
  function WrapAll(t: seq<string>): (r: seq<string>)
    ensures |r| == |t|
  {
    seq(|t|, i requires 0 <= i < |t| => WrapIndent(t[i]))
  }

  /** What `cleanse_text` returns for the editor's lines; `None` where it raises IndexError. */
  function Cleansed(lines: seq<string>, cfg: MarkerConfig): Option<seq<string>>
    requires forall i :: 0 <= i < |lines| ==> '\n' !in lines[i]
  {
    match Normalize(Prepare(lines))
    case None => None
    case Some(t) => Some(WrapAll(DropBlank(Marked(t, cfg))))
  }

  /**
    `cleanse_text` on lines already split by `str.splitlines` (hence without
    line feeds); `None` stands for the IndexError raised when no line survives.
  */
  method CleanseText(lines: seq<string>, cfg: MarkerConfig) returns (r: Option<seq<string>>)
    requires forall i :: 0 <= i < |lines| ==> '\n' !in lines[i]
    ensures r == Cleansed(lines, cfg)
    ensures r.Some? ==> forall i :: 0 <= i < |r.value| ==> !IsBlank(r.value[i])
  {
    var text := Prepare(lines);
    var normalized := NormalizeBlankLines(text);
    if normalized.None? {
      return None;
    }
    var t := normalized.value;
    var a := new string[|t|](i requires 0 <= i < |t| => t[i]);
    assert a[..] == t;
    AddMarkers(a, cfg);
    var kept := DropBlank(a[..]);
    r := Some(WrapAll(kept));
  }

  // ---------------------------------------------------------------------
  // Reference definition of the cleaned text and the theorems relating it
  // to the step-by-step pipeline above.

  /**
    The marker a content line gets, decided by the prepared lines that
    follow it: the end-of-text marker when no content line follows, the
    end-of-stanza marker when a blank line comes next, nothing otherwise.
  */
  function MarkerBefore(rest: seq<string>, cfg: MarkerConfig): string
  {
    if AllBlank(rest) then cfg.endOfTextMarker
    else if IsBlank(rest[0]) then cfg.endOfStanzaMarker
    else ""
  }

  /** Reference: every content line of `p`, in order, followed by its marker; blank lines contribute nothing. */
  function RefMark(p: seq<string>, cfg: MarkerConfig): seq<string>
  {
    if p == [] then []
    else if IsBlank(p[0]) then RefMark(p[1..], cfg)
    else [p[0] + MarkerBefore(p[1..], cfg)] + RefMark(p[1..], cfg)
  }

  lemma AllBlankCons(y: string, x: seq<string>)
    ensures AllBlank([y] + x) <==> IsBlank(y) && AllBlank(x)
  {
    assert ([y] + x)[0] == y;
    assert forall i :: 0 <= i < |x| ==> ([y] + x)[i + 1] == x[i];
  }

  /** The collapse keeps every content line, so content survives it and only blanks can vanish. */
  lemma {:induction false} CollapseContent(l: seq<string>, last: string)
    ensures AllBlank(Collapse(l, last)) <==> AllBlank(l)
  {
    if l != [] {
      CollapseContent(l[1..], l[0]);
      AllBlankCons(l[0], l[1..]);
      assert l == [l[0]] + l[1..];
      var x := Collapse(l[1..], l[0]);
      if !IsBlank(last) || !IsBlank(l[0]) {
        assert Collapse(l, last) == [l[0]] + x;
        AllBlankCons(l[0], x);
      } else {
        assert Collapse(l, last) == x;
      }
    }
  }

  /** After the collapse no two blank lines are neighbours, and a blank predecessor is never followed by a blank. */
  lemma {:induction false} CollapseNoAdjacent(l: seq<string>, last: string)
    ensures NoAdjacentBlanks(Collapse(l, last))
    ensures IsBlank(last) && Collapse(l, last) != [] ==> !IsBlank(Collapse(l, last)[0])
  {
    if l != [] {
      CollapseNoAdjacent(l[1..], l[0]);
      var x := Collapse(l[1..], l[0]);
      var c := Collapse(l, last);
      if !IsBlank(last) || !IsBlank(l[0]) {
        assert c == [l[0]] + x;
        forall i | 0 <= i < |c| - 1 ensures !IsBlank(c[i]) || !IsBlank(c[i + 1]) {
          if i > 0 { assert c[i] == x[i - 1] && c[i + 1] == x[i]; }
        }
      }
    }
  }

  /** Collapsing blank runs does not change the reference result. */
  lemma {:induction false} RefMarkCollapse(l: seq<string>, last: string, cfg: MarkerConfig)
    ensures RefMark(Collapse(l, last), cfg) == RefMark(l, cfg)
  {
    if l != [] {
      var y, r := l[0], l[1..];
      RefMarkCollapse(r, y, cfg);
      var x := Collapse(r, y);
      if IsBlank(y) {
        if !IsBlank(last) {
          assert Collapse(l, last) == [y] + x;
          assert ([y] + x)[1..] == x;
        } else {
          assert Collapse(l, last) == x;
        }
      } else {
        assert Collapse(l, last) == [y] + x;
        assert ([y] + x)[1..] == x;
        CollapseContent(r, y);
        if !AllBlank(r) {
          assert x[0] == r[0];
        }
        assert MarkerBefore(x, cfg) == MarkerBefore(r, cfg);
      }
    }
  }

  /** A trailing blank line changes nothing. */
  lemma {:induction false} RefMarkAppendBlank(t: seq<string>, b: string, cfg: MarkerConfig)
    requires IsBlank(b)
    ensures RefMark(t + [b], cfg) == RefMark(t, cfg)
  {
    if t == [] {
      assert RefMark([b], cfg) == RefMark([b][1..], cfg);
    } else {
      var tb := t + [b];
      assert tb[0] == t[0] && tb[1..] == t[1..] + [b];
      RefMarkAppendBlank(t[1..], b, cfg);
      AllBlankAppend(t[1..], [b]);
      if !AllBlank(t[1..]) {
        assert (t[1..] + [b])[0] == t[1..][0];
      }
      assert MarkerBefore(t[1..] + [b], cfg) == MarkerBefore(t[1..], cfg);
    }
  }

  lemma AllBlankAppend(s: seq<string>, u: seq<string>)
    ensures AllBlank(s + u) <==> AllBlank(s) && AllBlank(u)
  {
    assert forall i :: 0 <= i < |s| ==> (s + u)[i] == s[i];
    assert forall i :: 0 <= i < |u| ==> (s + u)[|s| + i] == u[i];
  }

  lemma MarkedTail(t: seq<string>, cfg: MarkerConfig)
    requires |t| >= 2
    ensures Marked(t, cfg)[1..] == Marked(t[1..], cfg)
  {
    var m, m1 := Marked(t, cfg), Marked(t[1..], cfg);
    forall i | 0 <= i < |m1| ensures m[1..][i] == m1[i] {
      assert MarkerAt(t, i + 1, cfg) == MarkerAt(t[1..], i, cfg);
    }
  }

  /**
    On a normalised list (last line has content, no two neighbouring blanks)
    the marker loop followed by the blank filter agrees with the reference.
  */
  lemma {:induction false} DropBlankMarked(t: seq<string>, cfg: MarkerConfig)
    requires t != [] && !IsBlank(t[|t| - 1]) && NoAdjacentBlanks(t)
    ensures DropBlank(Marked(t, cfg)) == RefMark(t, cfg)
  {
    var m := Marked(t, cfg);
    if |t| == 1 {
      assert m == [t[0] + cfg.endOfTextMarker];
      NonBlankAppend(t[0], cfg.endOfTextMarker);
      assert AllBlank(t[1..]);
    } else {
      MarkedTail(t, cfg);
      DropBlankMarked(t[1..], cfg);
      assert !AllBlank(t[1..]) by { assert t[1..][|t| - 2] == t[|t| - 1]; }
      assert m[0] == t[0] + MarkerAt(t, 0, cfg);
      if IsBlank(t[0]) {
        assert !IsBlank(t[1]);
        assert m[0] == t[0] + "";
      } else {
        NonBlankAppend(t[0], MarkerAt(t, 0, cfg));
        assert MarkerAt(t, 0, cfg) == MarkerBefore(t[1..], cfg);
      }
    }
  }

  /**
    `_normalize_blank_lines` fails exactly when no prepared line has
    content; otherwise it yields a list that ends in content, has no two
    neighbouring blanks, and has the same reference result as its input.
  */
  lemma NormalizeShape(p: seq<string>, cfg: MarkerConfig)
    ensures Normalize(p).None? <==> AllBlank(p)
    ensures Normalize(p).Some? ==>
      var t := Normalize(p).value;
      t != [] && !IsBlank(t[|t| - 1]) && NoAdjacentBlanks(t) && RefMark(t, cfg) == RefMark(p, cfg)
  {
    var c := Collapse(p, "");
    CollapseContent(p, "");
    CollapseNoAdjacent(p, "");
    RefMarkCollapse(p, "", cfg);
    if !AllBlank(p) {
      // the first kept line always has content: `del new_text[0]` never fires
      assert !IsBlank(c[0]);
      TrimLastShape(c, cfg);
      assert Normalize(p) == Some(if IsBlank(c[|c| - 1]) then c[..|c| - 1] else c);
    } else {
      CollapsedAllBlank(c);
    }
  }


  /** Collapsed lines that are all blank are at most one line. */
  lemma CollapsedAllBlank(c: seq<string>)
    requires NoAdjacentBlanks(c)
    ensures AllBlank(c) ==> |c| <= 1
  {
    if |c| >= 2 {
      assert !IsBlank(c[0]) || !IsBlank(c[1]);
    }
  }

  /** Dropping a trailing blank from collapsed lines that start with content. */
  lemma TrimLastShape(c: seq<string>, cfg: MarkerConfig)
    requires c != [] && !IsBlank(c[0]) && NoAdjacentBlanks(c)
    ensures var t := if IsBlank(c[|c| - 1]) then c[..|c| - 1] else c;
      t != [] && !IsBlank(t[|t| - 1]) && NoAdjacentBlanks(t) && RefMark(t, cfg) == RefMark(c, cfg)
  {
    var n := |c|;
    if IsBlank(c[n - 1]) {
      var t := c[..n - 1];
      assert c == t + [c[n - 1]];
      RefMarkAppendBlank(t, c[n - 1], cfg);
      assert !IsBlank(c[n - 2]);
    }
  }

  /**
    The whole of `cleanse_text`: it raises exactly when no prepared line has
    content, and otherwise returns the reference result with the
    indentation markup applied.
  */
  lemma CleansedIsReference(lines: seq<string>, cfg: MarkerConfig)
    requires forall i :: 0 <= i < |lines| ==> '\n' !in lines[i]
    ensures var p := Prepare(lines);
      Cleansed(lines, cfg) == if AllBlank(p) then None else Some(WrapAll(RefMark(p, cfg)))
  {
    var p := Prepare(lines);
    NormalizeShape(p, cfg);
    if !AllBlank(p) {
      DropBlankMarked(Normalize(p).value, cfg);
    }
  }

  // ---------------------------------------------------------------------
  // Consequences for the cleaned text

  lemma {:induction false} RefMarkAllBlank(p: seq<string>, cfg: MarkerConfig)
    requires AllBlank(p)
    ensures RefMark(p, cfg) == []
  {
    if p != [] {
      RefMarkAllBlank(p[1..], cfg);
    }
  }

  /** The last prepared line that has content. */
  function LastContent(p: seq<string>): (r: string)
    requires !AllBlank(p)
    ensures !IsBlank(r)
    ensures exists i :: 0 <= i < |p| && p[i] == r && AllBlank(p[i + 1..])
  {
    if AllBlank(p[1..]) then
      assert !IsBlank(p[0]) by {
        if IsBlank(p[0]) {
          forall i | 0 <= i < |p| ensures IsBlank(p[i]) { if i > 0 { assert p[i] == p[1..][i - 1]; } }
        }
      }
      assert p[1..] == p[0 + 1..];
      p[0]
    else
      var r := LastContent(p[1..]);
      var i :| 0 <= i < |p| - 1 && p[1..][i] == r && AllBlank(p[1..][i + 1..]);
      assert p[1..][i + 1..] == p[i + 2..];
      assert p[i + 1] == r;
      r
  }

  /**
    Before indentation markup, the last marked line is the last content line
    followed by the end-of-text marker (and no stanza marker).
  */
  lemma {:induction false} RefMarkLast(p: seq<string>, cfg: MarkerConfig)
    requires !AllBlank(p)
    ensures var r := RefMark(p, cfg); r != [] && r[|r| - 1] == LastContent(p) + cfg.endOfTextMarker
  {
    if AllBlank(p[1..]) {
      RefMarkAllBlank(p[1..], cfg);
    } else {
      RefMarkLast(p[1..], cfg);
    }
  }

  /**
    The last line `cleanse_text` returns is the last content line with the
    end-of-text marker, then indentation markup: for an indented last line
    the marker ends up inside the span.
  */
  lemma CleansedLast(lines: seq<string>, cfg: MarkerConfig)
    requires forall i :: 0 <= i < |lines| ==> '\n' !in lines[i]
    ensures Cleansed(lines, cfg).Some? <==> !AllBlank(Prepare(lines))
    ensures !AllBlank(Prepare(lines)) ==>
      var c := Cleansed(lines, cfg).value;
      c != [] && c[|c| - 1] == WrapIndent(LastContent(Prepare(lines)) + cfg.endOfTextMarker)
  {
    var p := Prepare(lines);
    CleansedIsReference(lines, cfg);
    if !AllBlank(p) {
      RefMarkLast(p, cfg);
      WrapAllLast(RefMark(p, cfg), LastContent(p) + cfg.endOfTextMarker);
    }
  }

  /** Wrapping keeps the last line last. */
  lemma WrapAllLast(t: seq<string>, x: string)
    requires t != [] && t[|t| - 1] == x
    ensures var w := WrapAll(t); w != [] && w[|w| - 1] == WrapIndent(x)
  {
  }

  /**
    The cleaned lines are the content lines of the prepared text, in order,
    each followed by the end-of-text marker, the end-of-stanza marker or
    nothing.
  */
  lemma {:induction false} RefMarkLines(p: seq<string>, cfg: MarkerConfig)
    ensures var r, d := RefMark(p, cfg), DropBlank(p);
      |r| == |d| &&
      forall j :: 0 <= j < |r| ==>
        r[j] == d[j] + cfg.endOfTextMarker || r[j] == d[j] + cfg.endOfStanzaMarker || r[j] == d[j]
  {
    if p != [] {
      RefMarkLines(p[1..], cfg);
      if !IsBlank(p[0]) {
        var r, d := RefMark(p, cfg), DropBlank(p);
        assert r == [p[0] + MarkerBefore(p[1..], cfg)] + RefMark(p[1..], cfg);
        assert d == [p[0]] + DropBlank(p[1..]);
        forall j | 0 < j < |r|
          ensures r[j] == d[j] + cfg.endOfTextMarker || r[j] == d[j] + cfg.endOfStanzaMarker || r[j] == d[j]
        {
          assert r[j] == RefMark(p[1..], cfg)[j - 1] && d[j] == DropBlank(p[1..])[j - 1];
        }
      }
    }
  }

  /** A text without blank lines is one stanza: only its last line gets a marker, the end-of-text one. */
  lemma {:induction false} NoBlankLinesOneStanza(p: seq<string>, cfg: MarkerConfig)
    requires p != [] && forall i :: 0 <= i < |p| ==> !IsBlank(p[i])
    ensures RefMark(p, cfg) == p[..|p| - 1] + [p[|p| - 1] + cfg.endOfTextMarker]
  {
    if |p| == 1 {
      assert AllBlank(p[1..]);
    } else {
      var q := p[1..];
      NoBlankLinesOneStanza(q, cfg);
      assert !AllBlank(q) by { assert !IsBlank(q[0]); }
      assert MarkerBefore(q, cfg) == "";
      assert p[0] + "" == p[0];
      assert RefMark(p, cfg) == [p[0]] + RefMark(q, cfg);
      assert q[|q| - 1] == p[|p| - 1];
      assert p[..|p| - 1] == [p[0]] + q[..|q| - 1];
    }
  }

  /** Blank lines before the first content line yield no marker. */
  lemma {:induction false} LeadingBlanksIgnored(b: seq<string>, p: seq<string>, cfg: MarkerConfig)
    requires AllBlank(b)
    ensures RefMark(b + p, cfg) == RefMark(p, cfg)
  {
    if b != [] {
      assert (b + p)[0] == b[0] && (b + p)[1..] == b[1..] + p;
      LeadingBlanksIgnored(b[1..], p, cfg);
    } else {
      assert b + p == p;
    }
  }

  /** Blank lines after the last content line yield no marker. */
  lemma {:induction false} TrailingBlanksIgnored(p: seq<string>, b: seq<string>, cfg: MarkerConfig)
    requires AllBlank(b)
    ensures RefMark(p + b, cfg) == RefMark(p, cfg)
    decreases |b|
  {
    if b == [] {
      assert p + b == p;
    } else {
      var n := |b|;
      assert p + b == (p + b[..n - 1]) + [b[n - 1]];
      RefMarkAppendBlank(p + b[..n - 1], b[n - 1], cfg);
      TrailingBlanksIgnored(p, b[..n - 1], cfg);
    }
  }

  /** A run of several blank lines has the effect of a single one: one stanza break, one marker. */
  lemma {:induction false} BlankRunCollapses(a: seq<string>, bs: seq<string>, b: string, c: seq<string>, cfg: MarkerConfig)
    requires bs != [] && AllBlank(bs) && IsBlank(b)
    ensures RefMark(a + bs + c, cfg) == RefMark(a + [b] + c, cfg)
  {
    if a == [] {
      assert a + bs + c == bs + c && a + [b] + c == [b] + c;
      LeadingBlanksIgnored(bs, c, cfg);
      LeadingBlanksIgnored([b], c, cfg);
    } else {
      var x, y := a + bs + c, a + [b] + c;
      assert x[0] == a[0] && y[0] == a[0];
      assert x[1..] == a[1..] + bs + c && y[1..] == a[1..] + [b] + c;
      BlankRunCollapses(a[1..], bs, b, c, cfg);
      AllBlankAppend(a[1..] + bs, c);
      AllBlankAppend(a[1..], bs);
      AllBlankAppend(a[1..] + [b], c);
      AllBlankAppend(a[1..], [b]);
      if a[1..] != [] {
        assert x[1..][0] == a[1..][0] == y[1..][0];
      } else {
        assert x[1..][0] == bs[0] && y[1..][0] == b;
      }
      assert MarkerBefore(x[1..], cfg) == MarkerBefore(y[1..], cfg);
    }
  }

  // ---------------------------------------------------------------------
  // Single lines

  lemma StripUnchanged(s: string)
    requires s != [] && !IsSpace(s[0]) && !IsSpace(s[|s| - 1])
    ensures Strip(s) == s
  {
    var r := Strip(s);
    var a := StripStart(s);
    assert a == 0 && |r| == |s|;
  }

  lemma IndentRunOf(ws: string, rest: string)
    requires ws != [] && forall i :: 0 <= i < |ws| ==> IsIndentChar(ws[i])
    requires rest == [] || !IsIndentChar(rest[0])
    ensures IndentRun(ws + rest) == |ws|
  {
    var s := ws + rest;
    assert s[|ws|..] == rest;
  }

  lemma PrepareLineUnfold(line: string)
    requires '\n' !in line && !StartsWith(line, "#")
    ensures '\n' !in Strip(ReplaceIndent(line))
    ensures PrepareLine(line) == Some(StripComment(Strip(ReplaceIndent(line))))
  {
    NoLineFeedAfterIndent(line);
    NoLineFeedAfterStrip(ReplaceIndent(line));
  }

  lemma NotStartsWithHash(s: string)
    requires s != [] && s[0] != '#'
    ensures !StartsWith(s, "#")
  {
    assert s[..1][0] == s[0];
  }

  lemma SentinelFacts()
    ensures |IndentSentinel| == 8 && IndentSentinel[0] == '<' && IndentSentinel[7] == '>'
    ensures '#' !in IndentSentinel && '\n' !in IndentSentinel
  {
  }

  /** Stripping a line whose first and ninth characters are not whitespace keeps its first nine characters. */
  lemma StripKeepsStart(l: string)
    requires |l| > 8 && !IsSpace(l[0]) && !IsSpace(l[8])
    ensures |Strip(l)| > 8 && Strip(l)[..9] == l[..9]
  {
    var s := Strip(l);
    var a := StripStart(l);
    assert a == 0;
    assert |s| > 8;
  }

  /** The comment remover leaves only the sentinel of a line that starts with the sentinel and a `#`. */
  lemma StripCommentAfterSentinel(s: string)
    requires '\n' !in s && |s| > 8 && s[..8] == IndentSentinel && s[8] == '#'
    ensures StripComment(s) == IndentSentinel
  {
    SentinelFacts();
    assert forall i :: 0 <= i < 8 ==> s[i] == IndentSentinel[i];
    var h := HashIndex(s);
    assert h == 8;
    var r := StripComment(s);
    assert s[7] == '>';
    assert |r| == 8;
  }

  lemma IndentOnlyParts(line: string)
    requires line != [] && forall i :: 0 <= i < |line| ==> IsIndentChar(line[i])
    ensures '\n' !in line && !StartsWith(line, "#")
    ensures ReplaceIndent(line) == IndentSentinel
  {
    IndentRunOf(line, []);
    assert line + [] == line;
    NotStartsWithHash(line);
  }

  /** A line of spaces and tabs only is not blank to the normaliser: it becomes a bare sentinel, later an empty indentation span. */
  lemma WhitespaceOnlyLineNotBlank(line: string)
    requires line != [] && forall i :: 0 <= i < |line| ==> IsIndentChar(line[i])
    ensures '\n' !in line
    ensures PrepareLine(line) == Some(IndentSentinel)
    ensures !IsBlank(IndentSentinel)
  {
    IndentOnlyParts(line);
    SentinelFacts();
    StripUnchanged(IndentSentinel);
    PrepareLineUnfold(line);
  }

  lemma IndentedCommentParts(ws: string, rest: string)
    requires ws != [] && forall i :: 0 <= i < |ws| ==> IsIndentChar(ws[i])
    requires '\n' !in ws && '\n' !in rest
    ensures var line := ws + "#" + rest; var l := ReplaceIndent(line);
      '\n' !in line && !StartsWith(line, "#") && |l| > 8 && l[..8] == IndentSentinel && l[8] == '#'
  {
    var line := ws + "#" + rest;
    assert line == ws + ("#" + rest);
    IndentRunOf(ws, "#" + rest);
    assert line[|ws|..] == "#" + rest;
    assert line[0] == ws[0];
    NotStartsWithHash(line);
    SentinelFacts();
  }

  /** An indented comment line survives the column-0 comment filter and leaves a bare sentinel behind. */
  lemma IndentedCommentSurvives(ws: string, rest: string)
    requires ws != [] && forall i :: 0 <= i < |ws| ==> IsIndentChar(ws[i])
    requires '\n' !in ws && '\n' !in rest
    ensures '\n' !in ws + "#" + rest
    ensures PrepareLine(ws + "#" + rest) == Some(IndentSentinel)
  {
    var line := ws + "#" + rest;
    IndentedCommentParts(ws, rest);
    var l := ReplaceIndent(line);
    SentinelFacts();
    assert l[0] == IndentSentinel[0];
    StripKeepsStart(l);
    var s := Strip(l);
    assert s[..8] == s[..9][..8] == l[..9][..8] == l[..8];
    assert s[8] == s[..9][8] == l[..9][8];
    PrepareLineUnfold(line);
    StripCommentAfterSentinel(s);
  }

  lemma StripKeepsOut(line: string, c: char)
    requires c !in line
    ensures c !in Strip(line)
  {
    var s := Strip(line);
    var a := StripStart(line);
    assert forall i :: 0 <= i < |s| ==> s[i] == line[a + i];
  }

  /** A line without a comment and without indentation is only stripped. */
  lemma PlainLineOnlyStripped(line: string)
    requires '\n' !in line && '#' !in line && IndentRun(line) == 0
    ensures PrepareLine(line) == Some(Strip(line))
  {
    if line != [] {
      assert line[0] in line;
      NotStartsWithHash(line);
    }
    PrepareLineUnfold(line);
    StripKeepsOut(line, '#');
  }

  /** The sentinel followed by `body`: its ends, and what it does not contain. */
  lemma SentinelBefore(body: string)
    requires body != [] && '#' !in body && '\n' !in body
    ensures var l := IndentSentinel + body;
      l[0] == '<' && l[|l| - 1] == body[|body| - 1] && '#' !in l && '\n' !in l
  {
    SentinelFacts();
    var l := IndentSentinel + body;
    assert forall i :: 0 <= i < |body| ==> l[8 + i] == body[i];
    assert forall i :: 0 <= i < 8 ==> l[i] == IndentSentinel[i];
  }

  /** An indented line without a comment is prepared to the sentinel and the stripped rest. */
  lemma IndentedLinePrepared(ws: string, body: string)
    requires ws != [] && forall i :: 0 <= i < |ws| ==> IsIndentChar(ws[i])
    requires body != [] && !IsSpace(body[0]) && !IsSpace(body[|body| - 1])
    requires '#' !in body && '\n' !in body && '\n' !in ws
    ensures '\n' !in ws + body
    ensures PrepareLine(ws + body) == Some(IndentSentinel + body)
  {
    var line := ws + body;
    IndentRunOf(ws, body);
    assert line[|ws|..] == body;
    var l := ReplaceIndent(line);
    SentinelBefore(body);
    StripUnchanged(l);
    assert line[0] == ws[0];
    NotStartsWithHash(line);
    PrepareLineUnfold(line);
  }

  /** The indentation span wraps everything after the sentinel when it holds no line feed. */
  lemma WrapSentinel(x: string)
    requires '\n' !in x
    ensures WrapIndent(IndentSentinel + x) == IndentOpen + x + IndentClose
  {
    var m := IndentSentinel + x;
    assert m[..|IndentSentinel|] == IndentSentinel;
    assert m[|IndentSentinel|..] == x;
  }

  /** A poem whose only surviving line has content becomes that line with the end-of-text marker. */
  lemma OneLineCleansed(line: string, l: string, cfg: MarkerConfig)
    requires '\n' !in line && PrepareLine(line) == Some(l) && !IsBlank(l)
    ensures Cleansed([line], cfg) == Some([WrapIndent(l + cfg.endOfTextMarker)])
  {
    var ls := [line];
    assert ls[0] == line && ls[1..] == [];
    assert Prepare(ls) == [l] + Prepare([]);
    var p := [l];
    assert p[0] == l && p[1..] == [];
    assert !AllBlank(p);
    CleansedIsReference(ls, cfg);
    assert RefMark(p, cfg) == [l + cfg.endOfTextMarker] + RefMark([], cfg);
    var m := l + cfg.endOfTextMarker;
    var w := WrapAll([m]);
    assert w[0] == WrapIndent(m);
    assert w == [WrapIndent(m)];
    assert Cleansed(ls, cfg) == Some(WrapAll(RefMark(p, cfg)));
    assert RefMark(p, cfg) == [m];
  }

  /**
    A poem of one indented line: the leading spaces and tabs, of any width
    or mix, become the indentation span, and the appended end-of-text
    marker ends up inside it.
  */
  lemma IndentedLineWrapped(ws: string, body: string, cfg: MarkerConfig)
    requires ws != [] && forall i :: 0 <= i < |ws| ==> IsIndentChar(ws[i])
    requires body != [] && !IsSpace(body[0]) && !IsSpace(body[|body| - 1])
    requires '#' !in body && '\n' !in body && '\n' !in ws && '\n' !in cfg.endOfTextMarker
    ensures '\n' !in ws + body
    ensures Cleansed([ws + body], cfg) == Some([IndentOpen + body + cfg.endOfTextMarker + IndentClose])
  {
    var l := IndentSentinel + body;
    var m := body + cfg.endOfTextMarker;
    IndentedLinePrepared(ws, body);
    SentinelBefore(body);
    assert !IsBlank(l) by {
      assert !IsSpace(l[0]);
    }
    OneLineCleansed(ws + body, l, cfg);
    ConcatAssoc(IndentSentinel, body, cfg.endOfTextMarker);
    NoLineFeedConcat(body, cfg.endOfTextMarker);
    WrapSentinel(m);
    ConcatAssoc(IndentOpen, body, cfg.endOfTextMarker);
  }

  lemma ConcatAssoc(a: string, b: string, c: string)
    ensures a + b + c == a + (b + c)
  {
  }

  lemma NoLineFeedConcat(a: string, b: string)
    requires '\n' !in a && '\n' !in b
    ensures '\n' !in a + b
  {
    assert forall i :: 0 <= i < |a + b| ==> (a + b)[i] == if i < |a| then a[i] else b[i - |a|];
  }
}
