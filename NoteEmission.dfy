/**
  `populate_note` and `add_notes` of `src/gen_notes.py`: one note per node
  of the poem chain, its fields filled in a fixed order, added to the
  collection one by one.

  The host's note, note type and collection are modelled by the little of
  them these functions touch: a note's field map and tags, the note type's
  deck id and field names, and the collection's list of added notes.
*/
module NoteEmission {
  import opened Wrappers
  import opened PyStr
  import opened PoemChain

  /** The note type the notes are made from; `did` is the deck new cards of it go to. */
  class NoteType {
    var did: int
    const fieldNames: seq<string>

    constructor (fieldNames: seq<string>, did: int)
      ensures this.fieldNames == fieldNames && this.did == did
    {
      this.fieldNames := fieldNames;
      this.did := did;
    }
  }

  /** A fresh note has every field of its note type, each empty. */
  function EmptyFields(fieldNames: seq<string>): (m: map<string, string>)
    ensures forall f :: f in m <==> f in fieldNames
    ensures forall f :: f in m ==> m[f] == ""
  {
    map f | f in fieldNames :: ""
  }

  /** A note: its fields, by name, and its tags. */
  class Note {
    const noteType: NoteType
    var fields: map<string, string>
    var tags: seq<string>

    constructor (noteType: NoteType)
      ensures this.noteType == noteType
      ensures fields == EmptyFields(noteType.fieldNames) && tags == []
    {
      this.noteType := noteType;
      fields := EmptyFields(noteType.fieldNames);
      tags := [];
    }

    /** `note[name] = value`: fails, as the host's KeyError, when the note has no such field. */
    method SetField(name: string, value: string) returns (ok: bool)
      modifies this
      ensures ok <==> name in old(fields)
      ensures fields == if ok then old(fields)[name := value] else old(fields)
      ensures tags == old(tags)
    {
      ok := name in fields;
      if ok {
        fields := fields[name := value];
      }
    }
  }

  /** What the collection keeps of an added note. */
  datatype NoteContent = NoteContent(fields: map<string, string>, tags: seq<string>)

  /** The collection notes are added to. */
  class Collection {
    var notes: seq<NoteContent>

    constructor ()
      ensures notes == []
    {
      notes := [];
    }

    /** `col.addNote(n)`: the note as it is now is appended. */
    method AddNote(n: Note)
      modifies this
      ensures notes == old(notes) + [NoteContent(n.fields, n.tags)]
    {
      notes := notes + [NoteContent(n.fields, n.tags)];
    }
  }

  // ---------------------------------------------------------------------
  // Filling one note

  /** A field name and the value to store in it. */
  type Assignment = (string, string)

  /** The arguments of `add_notes` every note is populated with. */
  datatype NoteSettings = NoteSettings(title: string, author: string, tags: seq<string>,
                                       contextLines: int, reciteLines: int)

  /**
    The fields `populate_note` sets, in the order it sets them, given their
    values; `Prompt` only when there is a prompt.
  */
  function FieldAssignments(title: string, author: string, sequence: string, context: string, line: string,
                            prompt: Option<string>): seq<Assignment>
  {
    [("Title", title), ("Author", author), ("Sequence", sequence), ("Context", context), ("Line", line)] +
    (if prompt.Some? then [("Prompt", prompt.value)] else [])
  }

  /** The fields `populate_note` sets on node `k`'s note. */
  function Assignments(c: seq<PoemLine>, k: nat, s: NoteSettings): seq<Assignment>
    requires WellLinked(c) && 1 <= k < |c|
  {
    FieldAssignments(s.title, s.author, NatToString(c[k].seqNo),
                     FormatLines(GetContext(c, k, s.contextLines, false)),
                     FormatLines(GetText(c, k, s.reciteLines)),
                     GetPrompt(c, k, s.reciteLines))
  }

  /**
    The fields after the assignments are made one by one, stopping at the
    first one whose field the note does not have; that field's name is
    returned with the fields as they were then.
  */
  function ApplyAll(fields: map<string, string>, assignments: seq<Assignment>): (map<string, string>, Option<string>)
  {
    if assignments == [] then (fields, None)
    else if assignments[0].0 !in fields then (fields, Some(assignments[0].0))
    else ApplyAll(fields[assignments[0].0 := assignments[0].1], assignments[1..])
  }

  /** Assignments never add or remove a field. */
  lemma {:induction false} ApplyAllKeepsFieldNames(fields: map<string, string>, assignments: seq<Assignment>)
    ensures ApplyAll(fields, assignments).0.Keys == fields.Keys
    decreases |assignments|
  {
    if assignments != [] && assignments[0].0 in fields {
      ApplyAllKeepsFieldNames(fields[assignments[0].0 := assignments[0].1], assignments[1..]);
    }
  }

  /**
    The assignments fail exactly when one names a missing field, and then
    they fail at the first such one.
  */
  lemma {:induction false} ApplyAllFailsAtFirstMissing(fields: map<string, string>, assignments: seq<Assignment>)
    ensures var m := ApplyAll(fields, assignments).1;
      (m.None? <==> forall i :: 0 <= i < |assignments| ==> assignments[i].0 in fields) &&
      (m.Some? ==> exists i :: 0 <= i < |assignments| && assignments[i].0 == m.value && m.value !in fields &&
                     forall j :: 0 <= j < i ==> assignments[j].0 in fields)
    decreases |assignments|
  {
    if assignments != [] {
      var a := assignments[0];
      if a.0 in fields {
        var rest := assignments[1..];
        ApplyAllFailsAtFirstMissing(fields[a.0 := a.1], rest);
        assert forall i :: 1 <= i < |assignments| ==> assignments[i] == rest[i - 1];
        var m := ApplyAll(fields, assignments).1;
        if m.Some? {
          var i :| 0 <= i < |rest| && rest[i].0 == m.value && m.value !in fields[a.0 := a.1] &&
            forall j :: 0 <= j < i ==> rest[j].0 in fields[a.0 := a.1];
          assert assignments[i + 1] == rest[i];
        }
      } else {
        assert assignments[0].0 !in fields;
      }
    }
  }

  /**
    When every assignment succeeds and no field is assigned twice, each
    assigned field holds its value and every other field is as it was.
  */
  lemma {:induction false} ApplyAllValues(fields: map<string, string>, assignments: seq<Assignment>)
    requires forall i :: 0 <= i < |assignments| ==> assignments[i].0 in fields
    requires forall i, j :: 0 <= i < j < |assignments| ==> assignments[i].0 != assignments[j].0
    ensures var r := ApplyAll(fields, assignments).0;
      r.Keys == fields.Keys &&
      (forall i :: 0 <= i < |assignments| ==> r[assignments[i].0] == assignments[i].1) &&
      (forall f :: f in fields && (forall i :: 0 <= i < |assignments| ==> assignments[i].0 != f) ==> r[f] == fields[f])
    decreases |assignments|
  {
    ApplyAllKeepsFieldNames(fields, assignments);
    if assignments != [] {
      var a, rest := assignments[0], assignments[1..];
      var f1 := fields[a.0 := a.1];
      assert forall i :: 1 <= i < |assignments| ==> assignments[i] == rest[i - 1];
      ApplyAllValues(f1, rest);
      ApplyAllKeepsFieldNames(f1, rest);
    }
  }

  /**
    `populate_note` on node `k`: the note type's deck and the note's tags
    are set, then the fields in order, stopping with the name of the first
    field the note does not have (the KeyError).
  */
  method PopulateNote(note: Note, c: seq<PoemLine>, k: nat, s: NoteSettings, deckId: int) returns (missing: Option<string>)
    requires WellLinked(c) && 1 <= k < |c|
    modifies note, note.noteType
    ensures note.noteType.did == deckId && note.tags == s.tags
    ensures (note.fields, missing) == ApplyAll(old(note.fields), Assignments(c, k, s))
    ensures old(note.fields) == EmptyFields(note.noteType.fieldNames) ==>
      (note.fields, missing) == NoteFor(c, k, note.noteType.fieldNames, s)
  {
    note.noteType.did := deckId;
    note.tags := s.tags;
    var assignments := Assignments(c, k, s);
    missing := None;
    var i := 0;
    while i < |assignments|
      invariant 0 <= i <= |assignments|
      invariant note.noteType.did == deckId && note.tags == s.tags
      invariant ApplyAll(old(note.fields), assignments) == ApplyAll(note.fields, assignments[i..])
    {
      var ok := note.SetField(assignments[i].0, assignments[i].1);
      if !ok {
        missing := Some(assignments[i].0);
        return;
      }
      i := i + 1;
    }
  }

  // ---------------------------------------------------------------------
  // Emitting all notes

  /** Node `k`'s populated note on a fresh note of a type with `fieldNames`, and the field it lacked, if any. */
  function NoteFor(c: seq<PoemLine>, k: nat, fieldNames: seq<string>, s: NoteSettings): (map<string, string>, Option<string>)
    requires WellLinked(c) && 1 <= k < |c|
  {
    ApplyAll(EmptyFields(fieldNames), Assignments(c, k, s))
  }

  /** What populating one note came to: its fields, and the field it lacked, if any. */
  type Outcome = (map<string, string>, Option<string>)

  /** The outcome of populating a fresh note for every node after `Beginning`, in chain order. */
  function Outcomes(c: seq<PoemLine>, fieldNames: seq<string>, s: NoteSettings): (o: seq<Outcome>)
    requires WellLinked(c)
    ensures |o| == |c| - 1
    ensures forall k :: 1 <= k < |c| ==> NoteFor(c, k, fieldNames, s) == o[k - 1]
  {
    OutcomesUpTo(c, |c| - 1, fieldNames, s)
  }

  /** The outcomes of the first `j` nodes after `Beginning`. */
  function OutcomesUpTo(c: seq<PoemLine>, j: nat, fieldNames: seq<string>, s: NoteSettings): (o: seq<Outcome>)
    requires WellLinked(c) && j < |c|
    ensures |o| == j
    ensures forall k :: 1 <= k <= j ==> NoteFor(c, k, fieldNames, s) == o[k - 1]
  {
    if j == 0 then [] else OutcomesUpTo(c, j - 1, fieldNames, s) + [NoteFor(c, j, fieldNames, s)]
  }

  /**
    The notes `add_notes` has added to the collection once the first `j`
    outcomes have been handled, and the field a note lacked if one stopped it.
  */
  function EmitUpTo(o: seq<Outcome>, j: nat, tags: seq<string>): (seq<NoteContent>, Option<string>)
    requires j <= |o|
  {
    if j == 0 then ([], None)
    else
      var prev := EmitUpTo(o, j - 1, tags);
      if prev.1.Some? then prev
      else if o[j - 1].1.Some? then (prev.0, o[j - 1].1)
      else (prev.0 + [NoteContent(o[j - 1].0, tags)], None)
  }

  /** The notes and the missing field, if any, over the whole chain. */
  function Emitted(c: seq<PoemLine>, fieldNames: seq<string>, s: NoteSettings): (seq<NoteContent>, Option<string>)
    requires WellLinked(c)
  {
    EmitUpTo(Outcomes(c, fieldNames, s), |c| - 1, s.tags)
  }

  /**
    `add_notes`: builds the chain over `text` and, for each node after
    `Beginning` in order, makes a note of `noteType`, populates it and adds
    it. The count of added notes comes back; a missing field stops the run
    with that field's name, the notes added before it staying in the
    collection.
  */
  method AddNotes(col: Collection, noteType: NoteType, title: string, author: string, tags: seq<string>,
                  text: seq<string>, deckId: int, contextLines: int, groupLines: int, reciteLines: int)
    returns (r: Result<nat, string>)
    modifies col, noteType
    ensures var e := Emitted(Chain(text, groupLines), noteType.fieldNames,
                             NoteSettings(title, author, tags, contextLines, reciteLines));
      col.notes == old(col.notes) + e.0 &&
      r == if e.1.Some? then Err(e.1.value) else Ok(|e.0|)
    ensures noteType.did == if |Chain(text, groupLines)| > 1 then deckId else old(noteType.did)
  {
    var chain := PoemLinesFromTextLines(text, groupLines);
    r := AddChainNotes(col, noteType, chain, NoteSettings(title, author, tags, contextLines, reciteLines), deckId);
  }

  /** The loop of `add_notes` over the nodes of a built chain. */
  method AddChainNotes(col: Collection, noteType: NoteType, chain: seq<PoemLine>, s: NoteSettings, deckId: int)
    returns (r: Result<nat, string>)
    requires WellLinked(chain)
    modifies col, noteType
    ensures var e := Emitted(chain, noteType.fieldNames, s);
      col.notes == old(col.notes) + e.0 &&
      r == if e.1.Some? then Err(e.1.value) else Ok(|e.0|)
    ensures noteType.did == if |chain| > 1 then deckId else old(noteType.did)
  {
    r := AddOutcomeNotes(col, noteType, chain, s, deckId, Outcomes(chain, noteType.fieldNames, s));
  }

  /**
    The same loop, stated over `o`, the outcomes its notes come to, so
    that its proof need not look into how each outcome is computed.
  */
  method AddOutcomeNotes(col: Collection, noteType: NoteType, chain: seq<PoemLine>, s: NoteSettings, deckId: int,
                         ghost o: seq<Outcome>)
    returns (r: Result<nat, string>)
    requires WellLinked(chain) && |o| == |chain| - 1
    requires forall k :: 1 <= k < |chain| ==> NoteFor(chain, k, noteType.fieldNames, s) == o[k - 1]
    modifies col, noteType
    ensures var e := EmitUpTo(o, |o|, s.tags);
      col.notes == old(col.notes) + e.0 &&
      r == if e.1.Some? then Err(e.1.value) else Ok(|e.0|)
    ensures noteType.did == if |chain| > 1 then deckId else old(noteType.did)
  {
    var added := 0;
    var k := 1;
    while k < |chain|
      invariant 1 <= k <= |chain|
      invariant var e := EmitUpTo(o, k - 1, s.tags);
        e.1.None? && col.notes == old(col.notes) + e.0 && added == |e.0|
      invariant noteType.did == if k > 1 then deckId else old(noteType.did)
    {
      var n := new Note(noteType);
      var missing := PopulateNote(n, chain, k, s, deckId);
      assert (n.fields, missing) == NoteFor(chain, k, noteType.fieldNames, s);
      if missing.Some? {
        EmitStopsAt(o, k, s.tags);
        return Err(missing.value);
      }
      EmitGoesOn(o, k, s.tags);
      col.AddNote(n);
      added := added + 1;
      k := k + 1;
    }
    r := Ok(added);
  }

  /** A note lacking a field stops the run: what was emitted before it is all that is emitted. */
  lemma EmitStopsAt(o: seq<Outcome>, k: nat, tags: seq<string>)
    requires 1 <= k <= |o| && EmitUpTo(o, k - 1, tags).1.None? && o[k - 1].1.Some?
    ensures EmitUpTo(o, |o|, tags) == (EmitUpTo(o, k - 1, tags).0, o[k - 1].1)
  {
    EmitStopped(o, k, |o|, tags);
  }

  /** A complete note is emitted after those before it. */
  lemma EmitGoesOn(o: seq<Outcome>, k: nat, tags: seq<string>)
    requires 1 <= k <= |o| && EmitUpTo(o, k - 1, tags).1.None? && o[k - 1].1.None?
    ensures EmitUpTo(o, k, tags) == (EmitUpTo(o, k - 1, tags).0 + [NoteContent(o[k - 1].0, tags)], None)
  {
  }

  /** Once a note has stopped the run, no later outcome changes it. */
  lemma {:induction false} EmitStopped(o: seq<Outcome>, j: nat, j2: nat, tags: seq<string>)
    requires j <= j2 <= |o|
    requires EmitUpTo(o, j, tags).1.Some?
    ensures EmitUpTo(o, j2, tags) == EmitUpTo(o, j, tags)
    decreases j2 - j
  {
    if j < j2 {
      EmitStopped(o, j, j2 - 1, tags);
    }
  }

  // ---------------------------------------------------------------------
  // What the emitted notes hold

  /** The fields `populate_note` writes are all in `fieldNames`. */
  predicate HasNoteFields(fieldNames: seq<string>)
  {
    "Title" in fieldNames && "Author" in fieldNames && "Sequence" in fieldNames &&
    "Context" in fieldNames && "Line" in fieldNames && "Prompt" in fieldNames
  }

  /** No field is assigned twice. */
  lemma FieldAssignmentsDistinct(title: string, author: string, sequence: string, context: string, line: string,
                                 prompt: Option<string>)
    ensures var a := FieldAssignments(title, author, sequence, context, line, prompt);
      forall i, j :: 0 <= i < j < |a| ==> a[i].0 != a[j].0
  {
    var a := FieldAssignments(title, author, sequence, context, line, prompt);
    assert a[0].0 == "Title" && a[1].0 == "Author" && a[2].0 == "Sequence" && a[3].0 == "Context" && a[4].0 == "Line";
    assert forall i :: 5 <= i < |a| ==> a[i].0 == "Prompt";
  }

  /**
    On a fresh note of a type with all six fields, populating fails
    nowhere, keeps exactly the type's fields, gives each assigned field
    its value and leaves `Prompt` empty when there is no prompt.
  */
  lemma FilledFields(fieldNames: seq<string>, title: string, author: string, sequence: string, context: string,
                     line: string, prompt: Option<string>)
    requires HasNoteFields(fieldNames)
    ensures var r := ApplyAll(EmptyFields(fieldNames), FieldAssignments(title, author, sequence, context, line, prompt));
      var m := r.0;
      r.1.None? && (forall f :: f in m <==> f in fieldNames) &&
      m["Title"] == title && m["Author"] == author && m["Sequence"] == sequence &&
      m["Context"] == context && m["Line"] == line &&
      m["Prompt"] == (if prompt.Some? then prompt.value else "")
  {
    var e := EmptyFields(fieldNames);
    var a := FieldAssignments(title, author, sequence, context, line, prompt);
    FieldAssignmentsDistinct(title, author, sequence, context, line, prompt);
    ApplyAllFailsAtFirstMissing(e, a);
    ApplyAllValues(e, a);
    assert a[0] == ("Title", title) && a[1] == ("Author", author) && a[2] == ("Sequence", sequence);
    assert a[3] == ("Context", context) && a[4] == ("Line", line);
    assert prompt.Some? ==> a[5] == ("Prompt", prompt.value);
    assert prompt.None? ==> forall i :: 0 <= i < |a| ==> a[i].0 != "Prompt";
  }

  /** Without a prompt, the five other fields are all a note type needs. */
  lemma FilledWithoutPrompt(fieldNames: seq<string>, title: string, author: string, sequence: string, context: string,
                            line: string)
    requires "Title" in fieldNames && "Author" in fieldNames && "Sequence" in fieldNames
    requires "Context" in fieldNames && "Line" in fieldNames
    ensures ApplyAll(EmptyFields(fieldNames), FieldAssignments(title, author, sequence, context, line, None)).1.None?
  {
    var a := FieldAssignments(title, author, sequence, context, line, None);
    assert a == [("Title", title), ("Author", author), ("Sequence", sequence), ("Context", context), ("Line", line)];
    ApplyAllFailsAtFirstMissing(EmptyFields(fieldNames), a);
  }

  /**
    On a note type with all six fields, node `k`'s note gets its title and
    author, `str(k)` as its sequence, its context and its recitation as
    paragraphs, and its prompt, or an untouched empty `Prompt` when it has
    none; nothing fails.
  */
  lemma NoteOfNode(c: seq<PoemLine>, k: nat, fieldNames: seq<string>, s: NoteSettings)
    requires WellLinked(c) && 1 <= k < |c| && HasNoteFields(fieldNames)
    ensures var r, prompt := NoteFor(c, k, fieldNames, s), GetPrompt(c, k, s.reciteLines);
      var m := r.0;
      r.1.None? && (forall f :: f in m <==> f in fieldNames) &&
      m["Title"] == s.title && m["Author"] == s.author && m["Sequence"] == NatToString(k) &&
      m["Context"] == FormatLines(GetContext(c, k, s.contextLines, false)) &&
      m["Line"] == FormatLines(GetText(c, k, s.reciteLines)) &&
      m["Prompt"] == (if prompt.Some? then prompt.value else "")
  {
    FilledFields(fieldNames, s.title, s.author, NatToString(c[k].seqNo),
                 FormatLines(GetContext(c, k, s.contextLines, false)),
                 FormatLines(GetText(c, k, s.reciteLines)),
                 GetPrompt(c, k, s.reciteLines));
  }

  /**
    The notes added up to any point are, in order, the notes of the
    outcomes so far; a stop is caused by the outcome after them.
  */
  lemma {:induction false} EmitShape(o: seq<Outcome>, j: nat, tags: seq<string>)
    requires j <= |o|
    ensures var e := EmitUpTo(o, j, tags);
      |e.0| <= j &&
      (forall i :: 0 <= i < |e.0| ==> o[i].1.None? && e.0[i] == NoteContent(o[i].0, tags)) &&
      (e.1.None? ==> |e.0| == j) &&
      (e.1.Some? ==> |e.0| < j && e.1 == o[|e.0|].1)
  {
    if j > 0 {
      EmitShape(o, j - 1, tags);
    }
  }

  /**
    On a note type with all six fields, `add_notes` adds one note per node,
    in sequence order (the `i`-th added note has sequence `str(i + 1)`), and
    returns their number.
  */
  lemma AllNotesEmitted(c: seq<PoemLine>, fieldNames: seq<string>, s: NoteSettings)
    requires WellLinked(c) && HasNoteFields(fieldNames)
    ensures var e := Emitted(c, fieldNames, s);
      e.1.None? && |e.0| == |c| - 1 &&
      forall i :: 0 <= i < |e.0| ==>
        e.0[i].tags == s.tags && "Sequence" in e.0[i].fields && e.0[i].fields["Sequence"] == NatToString(i + 1)
  {
    var o := Outcomes(c, fieldNames, s);
    forall i | 0 <= i < |o|
      ensures o[i].1.None? && "Sequence" in o[i].0 && o[i].0["Sequence"] == NatToString(i + 1)
    {
      SequenceOfNode(c, i + 1, fieldNames, s);
    }
    EmitShape(o, |o|, s.tags);
  }

  /** Node `k`'s note is complete and has sequence `str(k)`. */
  lemma SequenceOfNode(c: seq<PoemLine>, k: nat, fieldNames: seq<string>, s: NoteSettings)
    requires WellLinked(c) && 1 <= k < |c| && HasNoteFields(fieldNames)
    ensures var r := NoteFor(c, k, fieldNames, s);
      r.1.None? && "Sequence" in r.0 && r.0["Sequence"] == NatToString(k)
  {
    NoteOfNode(c, k, fieldNames, s);
    assert "Sequence" in fieldNames;
  }

  /**
    A note type that lacks only `Prompt` still takes every note when each
    node is one line and one line is recited: no note gets a prompt.
  */
  lemma PromptNeededOnlyForLongRecitations(c: seq<PoemLine>, fieldNames: seq<string>, s: NoteSettings)
    requires WellLinked(c) && forall k :: 1 <= k < |c| ==> c[k].SingleLine?
    requires s.reciteLines == 1
    requires "Title" in fieldNames && "Author" in fieldNames && "Sequence" in fieldNames
    requires "Context" in fieldNames && "Line" in fieldNames
    ensures var e := Emitted(c, fieldNames, s);
      e.1.None? && |e.0| == |c| - 1
  {
    var o := Outcomes(c, fieldNames, s);
    forall i | 0 <= i < |o| ensures o[i].1.None? {
      OneLineNoteComplete(c, i + 1, fieldNames, s);
    }
    EmitShape(o, |o|, s.tags);
  }

  /** A one-line node reciting one line has no prompt, so five fields suffice for its note. */
  lemma OneLineNoteComplete(c: seq<PoemLine>, k: nat, fieldNames: seq<string>, s: NoteSettings)
    requires WellLinked(c) && 1 <= k < |c| && c[k].SingleLine? && s.reciteLines == 1
    requires "Title" in fieldNames && "Author" in fieldNames && "Sequence" in fieldNames
    requires "Context" in fieldNames && "Line" in fieldNames
    ensures NoteFor(c, k, fieldNames, s).1.None?
  {
    assert GetPrompt(c, k, 1).None?;
    FilledWithoutPrompt(fieldNames, s.title, s.author, NatToString(c[k].seqNo),
                        FormatLines(GetContext(c, k, s.contextLines, false)),
                        FormatLines(GetText(c, k, s.reciteLines)));
  }

  /** The names of the fields `populate_note` may assign, in the order it assigns them. */
  const AssignedNames: seq<string> := ["Title", "Author", "Sequence", "Context", "Line", "Prompt"]

  /**
    A missing field stops the run at the first node whose note needs it;
    the notes of all earlier nodes have been added and stay.
  */
  lemma MissingFieldKeepsEarlierNotes(c: seq<PoemLine>, fieldNames: seq<string>, s: NoteSettings)
    requires WellLinked(c)
    ensures var e := Emitted(c, fieldNames, s);
      e.1.Some? ==>
        e.1.value !in fieldNames && e.1.value in AssignedNames && |e.0| + 1 < |c| &&
        (forall k :: 1 <= k <= |e.0| ==> NoteFor(c, k, fieldNames, s).1.None?) &&
        (e.1.value == "Prompt" ==> GetPrompt(c, |e.0| + 1, s.reciteLines).Some?)
  {
    var o := Outcomes(c, fieldNames, s);
    var e := EmitUpTo(o, |o|, s.tags);
    EmitShape(o, |o|, s.tags);
    if e.1.Some? {
      forall k | 1 <= k <= |e.0| ensures NoteFor(c, k, fieldNames, s).1.None? {
        assert o[k - 1].1.None?;
      }
      var k := |e.0| + 1;
      assert e.1 == NoteFor(c, k, fieldNames, s).1;
      MissingFieldIsAssigned(c, k, fieldNames, s);
    }
  }

  /**
    A note that cannot be populated names a field its note type lacks and
    `populate_note` assigns; `Prompt` only when the node has a prompt.
  */
  lemma MissingFieldIsAssigned(c: seq<PoemLine>, k: nat, fieldNames: seq<string>, s: NoteSettings)
    requires WellLinked(c) && 1 <= k < |c|
    ensures var r := NoteFor(c, k, fieldNames, s);
      r.1.Some? ==>
        r.1.value !in fieldNames && r.1.value in AssignedNames &&
        (r.1.value == "Prompt" ==> GetPrompt(c, k, s.reciteLines).Some?)
  {
    var a := Assignments(c, k, s);
    var m := ApplyAll(EmptyFields(fieldNames), a).1;
    ApplyAllFailsAtFirstMissing(EmptyFields(fieldNames), a);
    if m.Some? {
      var i :| 0 <= i < |a| && a[i].0 == m.value && m.value !in EmptyFields(fieldNames);
      assert a[0].0 == "Title" && a[1].0 == "Author" && a[2].0 == "Sequence" && a[3].0 == "Context" && a[4].0 == "Line";
      if i >= 5 {
        assert GetPrompt(c, k, s.reciteLines).Some? && a[i].0 == "Prompt";
      }
    }
  }
}
