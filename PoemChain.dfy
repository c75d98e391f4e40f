/**
  The chain of poem lines of `src/gen_notes.py`: the nodes built from the
  cleaned lines, and the context, recitation and prompt each node computes.

  The chain lives in an arena: index 0 holds the `Beginning` node and node
  `k` holds sequence number `k`, so a predecessor or successor reference is
  an index into the arena.
*/
module PoemChain {
  import opened Wrappers
  import opened PyStr

  /** The text the `Beginning` node shows as context. */
  const BeginningText: string := "[Beginning]"

  /**
    A node of the chain. `pred` and `succ` stand for the `predecessor` and
    `successor` references; the `Beginning` node is its own predecessor.
  */
  datatype PoemLine =
    | Beginning(pred: nat, seqNo: nat, succ: Option<nat>)
    | SingleLine(text: string, pred: nat, seqNo: nat, succ: Option<nat>)
    | GroupedLine(textLines: seq<string>, pred: nat, seqNo: nat, succ: Option<nat>)

  /** The physical lines a node contributes to a context or a recitation. */
  function Lines(n: PoemLine): seq<string>
  {
    match n
    case Beginning(_, _, _) => [BeginningText]
    case SingleLine(t, _, _, _) => [t]
    case GroupedLine(ts, _, _, _) => ts
  }

  /** The node with its successor reference set to node `k` (`pred.successor = poem_line`). */
  function LinkTo(n: PoemLine, k: nat): (r: PoemLine)
    ensures r.succ == Some(k) && r.pred == n.pred && r.seqNo == n.seqNo && Lines(r) == Lines(n)
    ensures r.Beginning? == n.Beginning? && r.SingleLine? == n.SingleLine? && r.GroupedLine? == n.GroupedLine?
  {
    match n
    case Beginning(p, q, _) => Beginning(p, q, Some(k))
    case SingleLine(t, p, q, _) => SingleLine(t, p, q, Some(k))
    case GroupedLine(ts, p, q, _) => GroupedLine(ts, p, q, Some(k))
  }

  /**
    The shape `_poemlines_from_textlines` gives its nodes: the `Beginning`
    node with sequence number 0 first, each later node's predecessor the
    node before it and its sequence number one more, each node's successor
    the node after it, and none after the last.
  */
  predicate WellLinked(c: seq<PoemLine>)
  {
    |c| >= 1 && c[0].Beginning? && c[0].pred == 0 &&
    (forall k :: 1 <= k < |c| ==> !c[k].Beginning? && c[k].pred == k - 1) &&
    (forall k :: 0 <= k < |c| ==> c[k].seqNo == k) &&
    (forall k :: 0 <= k < |c| ==> c[k].succ == if k + 1 < |c| then Some(k + 1) else None)
  }

  // ---------------------------------------------------------------------
  // Building the chain

  /** One lazily padded group of `zip_longest`: the elements of `s`, then `None` up to `n`. */
  function Pad(s: seq<string>, n: nat): (r: seq<Option<string>>)
    requires |s| <= n
    ensures |r| == n
    ensures forall i :: 0 <= i < |s| ==> r[i] == Some(s[i])
    ensures forall i :: |s| <= i < n ==> r[i].None?
  {
    seq(n, i requires 0 <= i < n => if i < |s| then Some(s[i]) else None)
  }

  /**
    `groups_of_n`: `zip_longest` over `n` copies of one iterator, so
    consecutive groups of `n` elements, the last padded with `None`.
    With `n <= 0` there is no iterator to zip and nothing comes out.
  */
  function GroupsOfN(s: seq<string>, n: int): (r: seq<seq<Option<string>>>)
    ensures n <= 0 ==> r == []
    ensures n > 0 ==> |r| == (|s| + n - 1) / n
    ensures n > 0 ==> forall i :: 0 <= i < |r| ==> |r[i]| == n
    decreases |s|
  {
    if n <= 0 || s == [] then []
    else if |s| <= n then
      CeilDivOne(|s|, n);
      [Pad(s, n)]
    else
      CeilDivStep(|s| - n, n);
      [Pad(s[..n], n)] + GroupsOfN(s[n..], n)
  }

  lemma CeilDivOne(m: nat, n: nat)
    requires 1 <= m <= n
    ensures (m + n - 1) / n == 1
  {
    assert n <= m + n - 1 < 2 * n;
  }

  lemma MulAtLeast(a: int, n: nat)
    requires a >= 1
    ensures a * n >= n
  {
    var b := a - 1;
    assert a * n == b * n + n;
  }

  lemma DivUnique(x: int, n: nat, q: int, r: int)
    requires n >= 1 && x == q * n + r && 0 <= r < n
    ensures x / n == q
  {
    var q', r' := x / n, x % n;
    assert q * n + r == q' * n + r';
    if q > q' {
      MulAtLeast(q - q', n);
    } else if q' > q {
      MulAtLeast(q' - q, n);
    }
  }

  lemma CeilDivStep(m: nat, n: nat)
    requires n >= 1
    ensures (m + n + n - 1) / n == (m + n - 1) / n + 1
  {
    var x := m + n - 1;
    var q, r := x / n, x % n;
    assert x + n == (q + 1) * n + r;
    DivUnique(x + n, n, q + 1, r);
  }

  /** The comprehension `[i for i in line_set if i is not None]`. */
  function Somes(g: seq<Option<string>>): (r: seq<string>)
    ensures |r| <= |g|
  {
    if g == [] then []
    else (if g[0].Some? then [g[0].value] else []) + Somes(g[1..])
  }

  /** The groups with their padding removed, one per grouped node. */
  function Unpadded(gs: seq<seq<Option<string>>>): (r: seq<seq<string>>)
    ensures |r| == |gs|
  {
    if gs == [] then [] else [Somes(gs[0])] + Unpadded(gs[1..])
  }

  /** The text lines of the nodes `_poemlines_from_textlines` creates, in order. */
  function NodeTexts(textLines: seq<string>, groupLines: int): (r: seq<seq<string>>)
  {
    if groupLines == 1 then seq(|textLines|, i requires 0 <= i < |textLines| => [textLines[i]])
    else Unpadded(GroupsOfN(textLines, groupLines))
  }

  /** Node `k` of the chain built over `texts` (node 0 is `Beginning`). */
  function NodeAt(texts: seq<seq<string>>, single: bool, k: nat): PoemLine
    requires k <= |texts|
  {
    var succ := if k < |texts| then Some(k + 1) else None;
    if k == 0 then Beginning(0, 0, succ)
    else if single && texts[k - 1] != [] then SingleLine(texts[k - 1][0], k - 1, k, succ)
    else GroupedLine(texts[k - 1], k - 1, k, succ)
  }

  /** The chain `_poemlines_from_textlines` links together, as an arena. */
  function Chain(textLines: seq<string>, groupLines: int): (c: seq<PoemLine>)
    ensures WellLinked(c)
  {
    var texts := NodeTexts(textLines, groupLines);
    var c := seq(|texts| + 1, k requires 0 <= k <= |texts| => NodeAt(texts, groupLines == 1, k));
    assert forall k :: 0 <= k < |c| ==> c[k] == NodeAt(texts, groupLines == 1, k);
    c
  }

  /**
    The chain is linked as the source links it, and its nodes hold the
    node texts in order: `SingleLine` nodes for a group size of 1,
    `GroupedLine` nodes otherwise.
  */
  lemma ChainShape(textLines: seq<string>, groupLines: int)
    ensures var c, t := Chain(textLines, groupLines), NodeTexts(textLines, groupLines);
      WellLinked(c) && |c| == |t| + 1 &&
      (forall k :: 1 <= k < |c| ==> Lines(c[k]) == t[k - 1]) &&
      (forall k :: 1 <= k < |c| ==> c[k].SingleLine? == (groupLines == 1))
  {
    var c, t := Chain(textLines, groupLines), NodeTexts(textLines, groupLines);
    forall k | 0 <= k < |c| ensures c[k] == NodeAt(t, groupLines == 1, k) {
    }
    if groupLines == 1 {
      forall k | 1 <= k < |c| ensures c[k] == SingleLine(textLines[k - 1], k - 1, k, c[k].succ) {
        assert t[k - 1] == [textLines[k - 1]];
      }
    } else {
      forall k | 1 <= k < |c| ensures c[k] == GroupedLine(t[k - 1], k - 1, k, c[k].succ) {
      }
    }
  }

  lemma LinkUnlinked(n: PoemLine, k: nat)
    requires n.succ == Some(k)
    ensures LinkTo(Unlinked(n), k) == n
  {
  }

  /**
    `_poemlines_from_textlines`: the arena of the chain it links together,
    the `Beginning` node at index 0 and the returned `lines` after it. Each
    new node is appended, becomes the successor of the previous one, and
    then the previous one itself.
  */
  method PoemLinesFromTextLines(textLines: seq<string>, groupLines: int) returns (chain: seq<PoemLine>)
    ensures chain == Chain(textLines, groupLines)
  {
    if groupLines == 1 {
      chain := LinkSingleLines(textLines);
    } else {
      chain := LinkGroupedLines(textLines, groupLines);
    }
  }

  /** The loop of `_poemlines_from_textlines` for a group size of 1: one `SingleLine` node per line. */
  method LinkSingleLines(textLines: seq<string>) returns (chain: seq<PoemLine>)
    ensures chain == Chain(textLines, 1)
  {
    ghost var full := Chain(textLines, 1);
    ChainShape(textLines, 1);
    chain := [Beginning(0, 0, None)];
    var pred: nat := 0;
    for i := 0 to |textLines|
      invariant |chain| == i + 1 && pred == i
      invariant forall k :: 0 <= k < i ==> chain[k] == full[k]
      invariant chain[i] == Unlinked(full[i])
    {
      var line := SingleLine(textLines[i], pred, chain[pred].seqNo + 1, None);
      assert line == Unlinked(full[i + 1]);
      LinkStep(full, chain, line);
      chain := chain + [line];
      chain := chain[pred := LinkTo(chain[pred], |chain| - 1)];
      pred := |chain| - 1;
    }
    assert chain == full by { LinkUnlinkedLast(full, chain); }
  }

  /** The loop of `_poemlines_from_textlines` for other group sizes: one `GroupedLine` node per group. */
  method LinkGroupedLines(textLines: seq<string>, groupLines: int) returns (chain: seq<PoemLine>)
    requires groupLines != 1
    ensures chain == Chain(textLines, groupLines)
  {
    ghost var full := Chain(textLines, groupLines);
    ghost var texts := NodeTexts(textLines, groupLines);
    ChainShape(textLines, groupLines);
    chain := [Beginning(0, 0, None)];
    var pred: nat := 0;
    var groups := GroupsOfN(textLines, groupLines);
    for i := 0 to |groups|
      invariant |chain| == i + 1 && pred == i
      invariant forall k :: 0 <= k < i ==> chain[k] == full[k]
      invariant chain[i] == Unlinked(full[i])
    {
      var line := GroupedLine(Somes(groups[i]), pred, chain[pred].seqNo + 1, None);
      assert Somes(groups[i]) == texts[i] by { UnpaddedAt(groups, i); }
      assert line == Unlinked(full[i + 1]);
      LinkStep(full, chain, line);
      chain := chain + [line];
      chain := chain[pred := LinkTo(chain[pred], |chain| - 1)];
      pred := |chain| - 1;
    }
    assert chain == full by { LinkUnlinkedLast(full, chain); }
  }

  /**
    One pass of the loop: the new node is appended and becomes the
    successor of the node before it, which is then as in the full chain.
  */
  lemma LinkStep(full: seq<PoemLine>, chain: seq<PoemLine>, line: PoemLine)
    requires WellLinked(full) && 1 <= |chain| < |full|
    requires forall k :: 0 <= k < |chain| - 1 ==> chain[k] == full[k]
    requires chain[|chain| - 1] == Unlinked(full[|chain| - 1]) && line == Unlinked(full[|chain|])
    ensures var i := |chain| - 1;
      var r := (chain + [line])[i := LinkTo((chain + [line])[i], i + 1)];
      |r| == |chain| + 1 && (forall k :: 0 <= k < |chain| ==> r[k] == full[k]) && r[|chain|] == Unlinked(full[|chain|])
  {
    var i := |chain| - 1;
    LinkUnlinked(full[i], i + 1);
  }

  /** The last node of the chain has no successor, so unlinked it is itself. */
  lemma LinkUnlinkedLast(full: seq<PoemLine>, chain: seq<PoemLine>)
    requires WellLinked(full) && |chain| == |full|
    requires forall k :: 0 <= k < |chain| - 1 ==> chain[k] == full[k]
    requires chain[|chain| - 1] == Unlinked(full[|chain| - 1])
    ensures chain == full
  {
    var n := |full| - 1;
    assert full[n].succ.None?;
    assert Unlinked(full[n]) == full[n];
  }

  /** The node as it is when just created, before it gets a successor. */
  function Unlinked(n: PoemLine): PoemLine
  {
    match n
    case Beginning(p, q, _) => Beginning(p, q, None)
    case SingleLine(t, p, q, _) => SingleLine(t, p, q, None)
    case GroupedLine(ts, p, q, _) => GroupedLine(ts, p, q, None)
  }

  lemma {:induction false} UnpaddedAt(gs: seq<seq<Option<string>>>, i: nat)
    requires i < |gs|
    ensures Unpadded(gs)[i] == Somes(gs[i])
  {
    if i > 0 {
      UnpaddedAt(gs[1..], i - 1);
    }
  }

  // ---------------------------------------------------------------------
  // Properties of the nodes built

  /** The lines of `ss`, one sequence after the other. */
  function Concat(ss: seq<seq<string>>): seq<string>
  {
    if ss == [] then [] else ss[0] + Concat(ss[1..])
  }

  lemma {:induction false} SomesPad(s: seq<string>, n: nat)
    requires |s| <= n
    ensures Somes(Pad(s, n)) == s
  {
    SomesPadFrom(Pad(s, n), |s|, 0);
    assert Pad(s, n)[0..] == Pad(s, n);
  }

  lemma {:induction false} SomesPadFrom(g: seq<Option<string>>, m: nat, j: nat)
    requires m <= |g| && j <= |g|
    requires forall i :: 0 <= i < m ==> g[i].Some?
    requires forall i :: m <= i < |g| ==> g[i].None?
    ensures Somes(g[j..]) == if j < m then seq(m - j, i requires 0 <= i < m - j => g[j + i].value) else []
    decreases |g| - j
  {
    if j < |g| {
      SomesPadFrom(g, m, j + 1);
      assert g[j..][1..] == g[j + 1..];
      assert g[j..][0] == g[j];
    } else {
      assert g[j..] == [];
    }
  }

  /**
    Grouping loses and adds nothing: for any positive group size the
    node texts, one after the other, are exactly the input lines, with
    no `None` padding left in them.
  */
  lemma NodeTextsConcat(textLines: seq<string>, groupLines: int)
    requires groupLines >= 1
    ensures Concat(NodeTexts(textLines, groupLines)) == textLines
  {
    if groupLines == 1 {
      SinglesConcat(textLines);
    } else {
      GroupsConcat(textLines, groupLines);
    }
  }

  lemma {:induction false} GroupsConcat(textLines: seq<string>, n: int)
    requires n >= 2
    ensures Concat(Unpadded(GroupsOfN(textLines, n))) == textLines
    decreases |textLines|
  {
    var gs := GroupsOfN(textLines, n);
    if textLines == [] {
    } else if |textLines| <= n {
      assert gs == [Pad(textLines, n)];
      SomesPad(textLines, n);
      assert Unpadded(gs) == [textLines] + Unpadded([]);
      assert Concat([textLines]) == textLines + Concat([]);
    } else {
      GroupsConcat(textLines[n..], n);
      UnpaddedStep(textLines, n);
      ConcatFront(textLines[..n], Unpadded(GroupsOfN(textLines[n..], n)), textLines);
    }
  }

  /** Putting the first lines back in front of the rest gives the whole. */
  lemma ConcatFront(front: seq<string>, rest: seq<seq<string>>, whole: seq<string>)
    requires |front| <= |whole| && front == whole[..|front|] && Concat(rest) == whole[|front|..]
    ensures Concat([front] + rest) == whole
  {
    var u := [front] + rest;
    assert u[0] == front && u[1..] == rest;
    assert whole == whole[..|front|] + whole[|front|..];
  }

  /** Past the first group, the unpadded groups are those of the rest of the lines. */
  lemma UnpaddedStep(textLines: seq<string>, n: int)
    requires n >= 2 && |textLines| > n
    ensures Unpadded(GroupsOfN(textLines, n)) == [textLines[..n]] + Unpadded(GroupsOfN(textLines[n..], n))
  {
    var gs := GroupsOfN(textLines, n);
    assert gs == [Pad(textLines[..n], n)] + GroupsOfN(textLines[n..], n);
    assert gs[1..] == GroupsOfN(textLines[n..], n);
    SomesPad(textLines[..n], n);
  }

  lemma {:induction false} SinglesConcat(textLines: seq<string>)
    ensures Concat(NodeTexts(textLines, 1)) == textLines
    decreases |textLines|
  {
    if textLines != [] {
      SinglesConcat(textLines[1..]);
      var t := NodeTexts(textLines, 1);
      assert t[0] == [textLines[0]];
      assert t[1..] == NodeTexts(textLines[1..], 1);
      assert textLines == [textLines[0]] + textLines[1..];
    }
  }

  /**
    How many nodes there are: one per line when `group_lines` is 1, the
    number of groups of `group_lines` (the last maybe short) when it is
    larger, and none at all when it is 0 or negative.
  */
  lemma NodeCount(textLines: seq<string>, groupLines: int)
    ensures var n := |NodeTexts(textLines, groupLines)|;
      (groupLines == 1 ==> n == |textLines|) &&
      (groupLines > 1 ==> n == (|textLines| + groupLines - 1) / groupLines) &&
      (groupLines <= 0 ==> n == 0)
  {
  }

  /** Every node has between one and `group_lines` lines. */
  lemma {:induction false} NodeSizes(textLines: seq<string>, groupLines: int)
    requires groupLines >= 1
    ensures var t := NodeTexts(textLines, groupLines);
      forall i :: 0 <= i < |t| ==> 1 <= |t[i]| <= groupLines
    decreases |textLines|
  {
    if groupLines > 1 && textLines != [] {
      var n := groupLines;
      var gs := GroupsOfN(textLines, n);
      var u := Unpadded(gs);
      if |textLines| <= n {
        SomesPad(textLines, n);
        assert u == [textLines] + Unpadded([]);
      } else {
        SomesPad(textLines[..n], n);
        NodeSizes(textLines[n..], n);
        assert gs[1..] == GroupsOfN(textLines[n..], n);
        assert u[0] == textLines[..n] && u[1..] == NodeTexts(textLines[n..], n);
        forall i | 1 <= i < |u| ensures 1 <= |u[i]| <= n {
          assert u[i] == u[1..][i - 1];
        }
      }
    }
  }

  // ---------------------------------------------------------------------
  // Context, recitation and prompt of a node

  /**
    `_get_context`: with `lines == 0` a node gives its own text; otherwise
    the call walks to the predecessor with one line fewer, and on the way
    back every node but the first one asked adds its own text. `Beginning`
    always gives its own text. A negative count never reaches 0, so the walk
    goes back all the way to `Beginning`.
  */
  function GetContext(c: seq<PoemLine>, k: nat, lines: int, recursing: bool): seq<string>
    requires WellLinked(c) && k < |c|
    decreases k
  {
    if c[k].Beginning? || lines == 0 then Lines(c[k])
    else if !recursing then GetContext(c, c[k].pred, lines - 1, true)
    else GetContext(c, c[k].pred, lines - 1, true) + Lines(c[k])
  }

  /**
    `_get_text` of a line node: its own text, followed by the successor's
    recitation with one line fewer unless `lines` is 1 or there is no
    successor. A count of 0 or less never reaches 1, so it runs to the end.
  */
  function GetText(c: seq<PoemLine>, k: nat, lines: int): seq<string>
    requires WellLinked(c) && 1 <= k < |c|
    decreases |c| - k
  {
    if lines == 1 || c[k].succ.None? then Lines(c[k])
    else Lines(c[k]) + GetText(c, c[k].succ.value, lines - 1)
  }

  /** The opening and closing of a prompt. */
  const PromptOpen: string := "[..."
  const PromptClose: string := "]"

  /**
    `_get_prompt`: nothing when the recitation is one physical line,
    otherwise `[...N]` with `N` the number of physical lines to recite.
  */
  function GetPrompt(c: seq<PoemLine>, k: nat, configuredRecitationLines: int): Option<string>
    requires WellLinked(c) && 1 <= k < |c|
  {
    var n := |GetText(c, k, configuredRecitationLines)|;
    if n == 1 then None else Some(PromptOpen + NatToString(n) + PromptClose)
  }

  /** The lines of nodes `lo` up to but excluding `hi`, in chain order. */
  function Span(c: seq<PoemLine>, lo: nat, hi: nat): seq<string>
    requires hi <= |c|
    decreases hi
  {
    if hi <= lo then [] else Span(c, lo, hi - 1) + Lines(c[hi - 1])
  }

  lemma {:induction false} SpanCons(c: seq<PoemLine>, lo: nat, hi: nat)
    requires lo < hi <= |c|
    ensures Span(c, lo, hi) == Lines(c[lo]) + Span(c, lo + 1, hi)
    decreases hi
  {
    if hi > lo + 1 {
      SpanCons(c, lo, hi - 1);
    }
  }

  /** The context a node asks its predecessor for while recursing. */
  lemma {:induction false} ContextRecursing(c: seq<PoemLine>, j: nat, m: int)
    requires WellLinked(c) && j < |c|
    ensures GetContext(c, j, m, true) == Span(c, if m >= 0 && j >= m then j - m else 0, j + 1)
    decreases j
  {
    if j == 0 {
      assert Span(c, 0, 0) == [];
    } else if m != 0 {
      ContextRecursing(c, j - 1, m - 1);
    } else {
      assert Span(c, j, j) == [];
    }
  }

  /**
    With `context_lines >= 1`, node `k`'s context is the lines of nodes
    `max(0, k - context_lines)` to `k - 1`, the `Beginning` node giving
    `[Beginning]`; it never holds node `k`'s own text.
  */
  lemma ContextIsSpan(c: seq<PoemLine>, k: nat, contextLines: int)
    requires WellLinked(c) && 1 <= k < |c| && contextLines >= 1
    ensures GetContext(c, k, contextLines, false) ==
      Span(c, if k >= contextLines then k - contextLines else 0, k)
  {
    ContextRecursing(c, k - 1, contextLines - 1);
  }

  /** With `context_lines == 0` a node's context is its own text. */
  lemma ContextZeroIsOwnText(c: seq<PoemLine>, k: nat)
    requires WellLinked(c) && 1 <= k < |c|
    ensures GetContext(c, k, 0, false) == Lines(c[k])
  {
  }

  /** With a negative `context_lines` the context is the whole poem before the node, from `[Beginning]` on. */
  lemma ContextNegativeIsHistory(c: seq<PoemLine>, k: nat, contextLines: int)
    requires WellLinked(c) && 1 <= k < |c| && contextLines < 0
    ensures GetContext(c, k, contextLines, false) == Span(c, 0, k)
  {
    ContextRecursing(c, k - 1, contextLines - 1);
  }

  /**
    One past the last node a recitation of `lines` lines from node `k`
    reaches in a chain of `n` nodes: `k + lines`, or the end of the chain
    when that is shorter or `lines` is not positive.
  */
  function RecitationEnd(n: nat, k: nat, lines: int): nat
  {
    if lines >= 1 && k + lines <= n then k + lines else n
  }

  /**
    The recitation of node `k` is the lines of nodes `k` to
    `min(k + recite_lines, n + 1) - 1`; with `recite_lines <= 0` it runs to
    the last node.
  */
  lemma {:induction false} TextIsSpan(c: seq<PoemLine>, k: nat, lines: int)
    requires WellLinked(c) && 1 <= k < |c|
    ensures GetText(c, k, lines) == Span(c, k, RecitationEnd(|c|, k, lines))
    decreases |c| - k
  {
    if lines == 1 || k + 1 == |c| {
      TextIsSpanLast(c, k, lines);
    } else {
      TextIsSpan(c, k + 1, lines - 1);
      TextIsSpanStep(c, k, lines);
    }
  }

  lemma TextIsSpanLast(c: seq<PoemLine>, k: nat, lines: int)
    requires WellLinked(c) && 1 <= k < |c| && (lines == 1 || k + 1 == |c|)
    ensures GetText(c, k, lines) == Span(c, k, RecitationEnd(|c|, k, lines))
  {
    GetTextLast(c, k, lines);
    SpanCons(c, k, k + 1);
    assert Span(c, k + 1, k + 1) == [];
  }

  lemma TextIsSpanStep(c: seq<PoemLine>, k: nat, lines: int)
    requires WellLinked(c) && 1 <= k && k + 1 < |c| && lines != 1
    requires GetText(c, k + 1, lines - 1) == Span(c, k + 1, RecitationEnd(|c|, k + 1, lines - 1))
    ensures GetText(c, k, lines) == Span(c, k, RecitationEnd(|c|, k, lines))
  {
    var hi := RecitationEnd(|c|, k, lines);
    assert RecitationEnd(|c|, k + 1, lines - 1) == hi;
    GetTextStep(c, k, lines);
    SpanCons(c, k, hi);
  }

  /** A recitation that stops is the node's own lines. */
  lemma GetTextLast(c: seq<PoemLine>, k: nat, lines: int)
    requires WellLinked(c) && 1 <= k < |c| && (lines == 1 || k + 1 == |c|)
    ensures GetText(c, k, lines) == Lines(c[k])
  {
    assert k + 1 == |c| ==> c[k].succ.None?;
  }

  /** A recitation that goes on is the node's own lines and then its successor's. */
  lemma GetTextStep(c: seq<PoemLine>, k: nat, lines: int)
    requires WellLinked(c) && 1 <= k && k + 1 < |c| && lines != 1
    ensures GetText(c, k, lines) == Lines(c[k]) + GetText(c, k + 1, lines - 1)
  {
    assert c[k].succ == Some(k + 1);
  }

  lemma {:induction false} SpanIsConcat(c: seq<PoemLine>, t: seq<seq<string>>, k: nat)
    requires |c| == |t| + 1 && forall j :: 1 <= j < |c| ==> Lines(c[j]) == t[j - 1]
    requires 1 <= k <= |c|
    ensures Span(c, k, |c|) == Concat(t[k - 1..])
    decreases |c| - k
  {
    if k < |c| {
      SpanCons(c, k, |c|);
      SpanIsConcat(c, t, k + 1);
      assert t[k - 1..][0] == t[k - 1] && t[k - 1..][1..] == t[k..];
    } else {
      assert t[k - 1..] == [];
    }
  }

  /**
    The chain holds the whole poem: the lines of its nodes after
    `Beginning`, in chain order, are exactly the input lines, and with
    `recite_lines <= 0` the first node recites all of them.
  */
  lemma ChainHoldsPoem(textLines: seq<string>, groupLines: int)
    requires groupLines >= 1
    ensures var c := Chain(textLines, groupLines);
      Span(c, 1, |c|) == textLines && (|c| > 1 ==> GetText(c, 1, 0) == textLines)
  {
    var c, t := Chain(textLines, groupLines), NodeTexts(textLines, groupLines);
    ChainShape(textLines, groupLines);
    SpanIsConcat(c, t, 1);
    assert t[0..] == t;
    NodeTextsConcat(textLines, groupLines);
    if |c| > 1 {
      TextIsSpan(c, 1, 0);
    }
  }

  /** Reads a prompt back: the number between `[...` and `]`, when that is a run of digits. */
  function ParsePrompt(s: string): Option<nat>
  {
    if |s| >= |PromptOpen| + 2 && s[..|PromptOpen|] == PromptOpen && s[|s| - 1] == PromptClose[0] &&
      forall i :: |PromptOpen| <= i < |s| - 1 ==> '0' <= s[i] <= '9'
    then
      var d := s[|PromptOpen|..|s| - 1];
      assert forall i :: 0 <= i < |d| ==> d[i] == s[|PromptOpen| + i];
      Some(DecimalValue(d))
    else None
  }

  /**
    The prompt is absent exactly when the recitation is one physical line;
    when present it reads back as the recitation's physical line count,
    which is what the note tells the learner to recite.
  */
  lemma PromptCountsPhysicalLines(c: seq<PoemLine>, k: nat, reciteLines: int)
    requires WellLinked(c) && 1 <= k < |c|
    ensures var n := |GetText(c, k, reciteLines)|; var p := GetPrompt(c, k, reciteLines);
      (p.None? <==> n == 1) && (p.Some? ==> ParsePrompt(p.value) == Some(n))
  {
    var n := |GetText(c, k, reciteLines)|;
    if n != 1 {
      var d := NatToString(n);
      var s := PromptOpen + d + PromptClose;
      assert s[..|PromptOpen|] == PromptOpen;
      assert s[|PromptOpen|..|s| - 1] == d;
      assert s[|s| - 1] == PromptClose[0];
      NatToStringRoundTrip(n);
    }
  }

  /** Two recitations of different lengths never show the same prompt. */
  lemma PromptsDistinguishCounts(c: seq<PoemLine>, k: nat, r: int, c2: seq<PoemLine>, k2: nat, r2: int)
    requires WellLinked(c) && 1 <= k < |c| && WellLinked(c2) && 1 <= k2 < |c2|
    requires |GetText(c, k, r)| != |GetText(c2, k2, r2)|
    ensures GetPrompt(c, k, r) != GetPrompt(c2, k2, r2)
  {
    PromptCountsPhysicalLines(c, k, r);
    PromptCountsPhysicalLines(c2, k2, r2);
  }

  // ---------------------------------------------------------------------
  // HTML of the note fields

  /** `''.join("<p>%s</p>" % i for i in lines)`: every line wrapped in a paragraph, without escaping. */
  function FormatLines(lines: seq<string>): string
  {
    if lines == [] then [] else "<p>" + lines[0] + "</p>" + FormatLines(lines[1..])
  }

  /** Formatting distributes over concatenation of line lists. */
  lemma {:induction false} FormatLinesAppend(a: seq<string>, b: seq<string>)
    ensures FormatLines(a + b) == FormatLines(a) + FormatLines(b)
    decreases |a|
  {
    if a != [] {
      assert (a + b)[0] == a[0] && (a + b)[1..] == a[1..] + b;
      FormatLinesAppend(a[1..], b);
    } else {
      assert a + b == b;
    }
  }

  /** Every line costs exactly its own length plus the seven characters of `<p></p>`: nothing is escaped or dropped. */
  lemma {:induction false} FormatLinesLength(lines: seq<string>)
    ensures |FormatLines(lines)| == TotalLength(lines) + 7 * |lines|
    decreases |lines|
  {
    if lines != [] {
      FormatLinesLength(lines[1..]);
    }
  }

  /** The number of characters in `lines` altogether. */
  function TotalLength(lines: seq<string>): nat
  {
    if lines == [] then 0 else |lines[0]| + TotalLength(lines[1..])
  }
}
