# LPCG core in Dafny

This project models the core of LPCG ("Lyrics/Poetry Cloze Generator"), an Anki add-on.
LPCG turns a poem into one flashcard per line, or per group of lines. Each card shows
some lines of context and asks for the next line or lines.

The model covers two parts of the add-on.

- **Note generation (`src/gen_notes.py`).** Four steps:
  - `cleanse_text` normalises the editor's text. It marks indentation, removes comments,
    collapses blank lines into stanza breaks, appends the end-of-stanza and end-of-text
    markers, drops blank lines and wraps indented lines in an indentation span.
  - `groups_of_n` and `_poemlines_from_textlines` build the chain of poem nodes. A
    `Beginning` sentinel with sequence number 0 comes first, followed by `SingleLine` or
    `GroupedLine` nodes.
  - Each node answers for its context lines, its recitation lines and its prompt
    `"[...N]"`.
  - `populate_note` and `add_notes` fill one note per node and add it to the collection.
- **The note type (`src/models.py`).** Three pieces:
  - `to_model` computes the sort field.
  - The LPCG upgrade table is walked by `upgrade_from`, `can_upgrade` and
    `is_at_version`, using the two upgrade functions that edit the note type in place.
  - `ensure_note_type` decides between creating, upgrading and refusing.

Modules:

- `Wrappers`: `Option` and `Result`.
- `PyStr`: the Python string operations the code uses. These are `isspace`, `strip`,
  `startswith`, `in`, `replace` and `str(n)` on naturals.
- `Cleanse`: `cleanse_text`. The step-by-step pipeline is proved equal to a reference
  definition, `RefMark`. `RefMark` marks every content line by what follows it.
- `PoemChain`: the nodes and their context, text and prompt.
  - The chain is a sequence indexed by sequence number.
  - Index 0 is the `Beginning` node.
  - A node's predecessor is the previous index and its successor the next one.
- `NoteEmission`: the host's note type, note and collection as classes, with
  `populate_note` and `add_notes` as methods over them.
- `NoteTypes`: the note type as a class whose fields the upgrade functions update.
  Around it are the upgrade walk, `can_upgrade` and `ensure_note_type`.

`SingleLine` and `GroupedLine` share their context, recitation and prompt code: the
`GroupedLine` versions (src/gen_notes.py:149-168) differ only in giving `text_lines`
instead of `[text]`. The model has one definition for both, through `Lines`, and the
table cites the `SingleLine` version. `Beginning` always gives `[Beginning]` as its context
(src/gen_notes.py:72-73).

The editor text is taken as already split into lines, so no line contains a line feed.
An exception the source raises is modelled as an error value:
- the IndexError of `cleanse_text` on text with no content is `None`;
- the KeyError of `populate_note` on a missing field is `Err` with the field's name;
- a failed assertion in an upgrade function is `Err` with its message;
- the ValueError of `to_model` is `Err`.

## Model

| member | source | states |
|---|---|---|
| PyStr.Strip | src/gen_notes.py:229 | `str.strip`: the result is a slice of the input, every character removed from either end is whitespace, the kept ends are not whitespace, and the result is empty exactly when the input is blank |
| PyStr.RStrip | src/gen_notes.py:230 | the whitespace that `\s*` matches before a `#` is removed: the result is a prefix, only whitespace is dropped, and it does not end in whitespace |
| PyStr.ReplaceAllAbsent | src/models.py:160 | `str.replace` of a pattern that does not occur leaves the string unchanged |
| PyStr.ReplaceAllFirst | src/models.py:160 | when `p` occurs and its first occurrence is preceded by `a`, `str.replace` gives `a`, then `r`, then the replaced rest: the first occurrence is replaced and scanning resumes after it |
| PyStr.ReplaceAll | src/models.py:160 | `str.replace` with a non-empty pattern: occurrences are replaced left to right, none overlapping an earlier one; ReplaceAllAbsent and ReplaceAllByItself state when it changes nothing |
| PyStr.StartsWith | src/gen_notes.py:229 | `str.startswith`: the pattern is a prefix of the string; PrepareLine states how the comment filter uses it |
| PyStr.ReplaceAllByItself | src/models.py:160 | `str.replace` of a pattern by itself leaves the string unchanged |
| PyStr.NatToString | src/gen_notes.py:24 | `str(n)` for a natural is a non-empty string of decimal digits, with a leading zero only for 0 |
| PyStr.NatToStringRoundTrip | src/gen_notes.py:24 | reading the digits of `str(n)` back gives `n` |
| PyStr.NatToStringInjective | src/gen_notes.py:24 | distinct sequence numbers give distinct `Sequence` strings |
| Cleanse.IndentRun | src/gen_notes.py:227 | the length of the longest leading run of spaces and tabs |
| Cleanse.ReplaceIndent | src/gen_notes.py:227 | a leading run of spaces and tabs of any width becomes the `<indent>` sentinel; a line without one is unchanged |
| Cleanse.HashIndex | src/gen_notes.py:230 | the position of the first `#`, or the length when there is none |
| Cleanse.StripComment | src/gen_notes.py:230 | the first `#`, the whitespace just before it and the rest of the line are removed; a line without `#` is unchanged; the result is a prefix without `#` and does not end in whitespace |
| Cleanse.PrepareLine | src/gen_notes.py:227-230 | a line is dropped exactly when it starts with `#` in column 0 |
| Cleanse.WrapIndent | src/gen_notes.py:241-242 | wrapping the sentinel never turns a line with content into a blank one |
| Cleanse.CollapseBlankRuns | src/gen_notes.py:213-218 | the first loop, keeping a line unless it and the line before it are both blank, computes `Collapse` |
| Cleanse.NormalizeBlankLines | src/gen_notes.py:211-223 | the loop with its tracked last line and the two deletions computes `Normalize`, or `None` where indexing the empty list raises IndexError |
| Cleanse.Collapse | src/gen_notes.py:213-218 | the first loop of `_normalize_blank_lines`: a line is kept unless it and the line before it are both blank; CollapseBlankRuns, CollapseContent and CollapseNoAdjacent state its meaning |
| Cleanse.Normalize | src/gen_notes.py:211-223 | `_normalize_blank_lines`: the collapsed lines without a leading and a trailing blank line, or None where the source raises IndexError; NormalizeShape states when it fails and what shape it gives |
| Cleanse.Prepare | src/gen_notes.py:227-230 | the indentation, comment-filter, strip and comment-removal steps over all lines, keeping the survivors in order; PrepareLine states what happens to each line |
| Cleanse.Marked | src/gen_notes.py:233-237 | marking keeps the number of lines |
| Cleanse.AddMarkers | src/gen_notes.py:233-237 | the in-place loop on the array leaves exactly the marked lines |
| Cleanse.DropBlank | src/gen_notes.py:239 | no line of the result is blank |
| Cleanse.WrapAll | src/gen_notes.py:241-242 | wrapping keeps the number of lines |
| Cleanse.CleanseText | src/gen_notes.py:206-243 | `cleanse_text` returns exactly `Cleansed` of its lines, and none of its lines is blank |
| Cleanse.Cleansed | src/gen_notes.py:206-243 | what `cleanse_text` returns, or None for its IndexError; CleansedIsReference ties it to the independent marking `RefMark` |
| Cleanse.CollapseContent | src/gen_notes.py:213-218 | collapsing blank runs neither creates nor loses content: the result is all blank exactly when the input is |
| Cleanse.CollapseNoAdjacent | src/gen_notes.py:213-218 | after collapsing, no two neighbouring lines are both blank, and after a blank predecessor the first kept line has content |
| Cleanse.RefMarkCollapse | src/gen_notes.py:213-218 | collapsing blank runs does not change which marker any content line gets |
| Cleanse.RefMarkAppendBlank | src/gen_notes.py:219-222 | a trailing blank line changes no marker |
| Cleanse.MarkedTail | src/gen_notes.py:233-237 | the marker of a line depends only on the lines after it |
| Cleanse.MarkerAt | src/gen_notes.py:233-237 | the marker appended to line i: the end-of-text marker on the last line, the end-of-stanza marker before a blank line, nothing otherwise; MarkedTail and DropBlankMarked state its meaning |
| Cleanse.DropBlankMarked | src/gen_notes.py:233-239 | on normalised lines, marking and then dropping blanks equals the reference marking |
| Cleanse.NormalizeShape | src/gen_notes.py:211-223 | normalisation fails exactly when every prepared line is blank; otherwise its result ends in content, has no adjacent blanks and gets the same reference marking |
| Cleanse.CleansedIsReference | src/gen_notes.py:206-243 | `cleanse_text` is `None` exactly when no prepared line has content, and otherwise is the wrapped reference marking of the prepared lines |
| Cleanse.TrimLastShape | src/gen_notes.py:219-222 | deleting a trailing blank line from collapsed lines that start with content leaves lines that end in content, have no adjacent blanks and get the same markers |
| Cleanse.CollapsedAllBlank | src/gen_notes.py:213-222 | collapsed lines that are all blank are at most one line, so the deletions leave nothing |
| Cleanse.RefMarkAllBlank | src/gen_notes.py:239 | lines that are all blank yield no output line |
| Cleanse.LastContent | src/gen_notes.py:233-235 | the last line with content: it is not blank and only blank lines follow it |
| Cleanse.RefMarkLast | src/gen_notes.py:233-235 | before indentation markup, the last marked line is the last content line followed by the end-of-text marker |
| Cleanse.CleansedLast | src/gen_notes.py:233-242 | the last line `cleanse_text` returns is the last content line with the end-of-text marker appended and then indentation markup applied, so for an indented last line the marker sits inside the span |
| Cleanse.RefMarkLines | src/gen_notes.py:233-239 | there is one output line per content line, in order, each followed by the end-of-text marker, the end-of-stanza marker or nothing |
| Cleanse.NoBlankLinesOneStanza | src/gen_notes.py:233-237 | a poem without blank lines gets no stanza marker and only its last line gets the end-of-text marker |
| Cleanse.LeadingBlanksIgnored | src/gen_notes.py:219-222 | leading blank lines yield no marker and no line |
| Cleanse.TrailingBlanksIgnored | src/gen_notes.py:219-222 | trailing blank lines yield no stanza marker: the last content line still gets the end-of-text marker |
| Cleanse.BlankRunCollapses | src/gen_notes.py:213-218 | a run of several blank lines gives the same output as a single blank line, so it yields one stanza marker |
| Cleanse.StripUnchanged | src/gen_notes.py:229 | a line with non-whitespace ends is unchanged by `strip` |
| Cleanse.IndentRunOf | src/gen_notes.py:227 | the indentation run of spaces and tabs followed by something else is exactly the spaces and tabs |
| Cleanse.PrepareLineUnfold | src/gen_notes.py:227-230 | a line not starting with `#` is indented, stripped and then has its comment removed |
| Cleanse.StripKeepsStart | src/gen_notes.py:229 | stripping a line with non-blank first and ninth characters keeps its first nine characters |
| Cleanse.StripCommentAfterSentinel | src/gen_notes.py:230 | a sentinel directly followed by `#` leaves only the sentinel |
| Cleanse.IndentOnlyParts | src/gen_notes.py:227 | a line of only spaces and tabs becomes the bare sentinel |
| Cleanse.WhitespaceOnlyLineNotBlank | src/gen_notes.py:227-230 | a line of only spaces and tabs is prepared as the non-blank sentinel, not as a stanza break |
| Cleanse.IndentedCommentParts | src/gen_notes.py:227-229 | an indented comment line does not start with `#` once its indentation is the sentinel |
| Cleanse.IndentedCommentSurvives | src/gen_notes.py:227-230 | an indented comment line is not dropped: it is prepared as the bare sentinel |
| Cleanse.StripKeepsOut | src/gen_notes.py:229 | stripping adds no character |
| Cleanse.PlainLineOnlyStripped | src/gen_notes.py:229-230 | an unindented line without `#` is only stripped |
| Cleanse.SentinelBefore | src/gen_notes.py:227 | the sentinel in front of a line adds no `#` and no line feed |
| Cleanse.IndentedLinePrepared | src/gen_notes.py:227-230 | any run of spaces and tabs before a line becomes the sentinel in front of its stripped text |
| Cleanse.WrapSentinel | src/gen_notes.py:241-242 | the sentinel and the rest of a line become the indentation span around the rest |
| Cleanse.OneLineCleansed | src/gen_notes.py:206-243 | a one-line poem with content becomes that line plus the end-of-text marker, wrapped |
| Cleanse.IndentedLineWrapped | src/gen_notes.py:227-242 | an indented line of any indentation width becomes the span around its text, the appended marker included |
| PoemChain.LinkTo | src/gen_notes.py:195 | setting a node's successor changes nothing else about the node |
| PoemChain.Pad | src/gen_notes.py:177 | a short group is padded with `None` to length n, keeping its lines in order |
| PoemChain.GroupsOfN | src/gen_notes.py:171-177 | `zip_longest` of n copies of one iterator gives ceil(len/n) groups of exactly n items, and no group when n <= 0 |
| PoemChain.Somes | src/gen_notes.py:199 | dropping the `None` padding never lengthens a group |
| PoemChain.Unpadded | src/gen_notes.py:198-199 | one node text per group |
| PoemChain.Chain | src/gen_notes.py:180-203 | the built chain is well linked: node k has sequence number k, its predecessor is node k-1 (the `Beginning` for node 1), its successor is node k+1, and the last node has none |
| PoemChain.NodeTexts | src/gen_notes.py:191-199 | the text lines of each node the two loops create: one line per node for `group_lines == 1`, otherwise the groups without padding; NodeTextsConcat, NodeCount and NodeSizes state their meaning |
| PoemChain.NodeAt | src/gen_notes.py:191-202 | node k of the linked chain: Beginning at 0, otherwise a SingleLine or GroupedLine with predecessor k-1, sequence number k and successor k+1 unless last; Chain and ChainShape state the resulting links |
| PoemChain.ChainShape | src/gen_notes.py:180-203 | there is one node per node text, after the `Beginning`, each holding its text, and nodes are `SingleLine` exactly when `group_lines == 1` |
| PoemChain.LinkUnlinked | src/gen_notes.py:193-196 | a node appended without a successor and then linked equals the linked node |
| PoemChain.PoemLinesFromTextLines | src/gen_notes.py:180-203 | the arena of nodes `_poemlines_from_textlines` links together is exactly `Chain` |
| PoemChain.LinkSingleLines | src/gen_notes.py:191-196 | the loop over single lines, appending each node and making it its predecessor's successor, builds exactly `Chain` with group size 1 |
| PoemChain.LinkGroupedLines | src/gen_notes.py:197-202 | the loop over the groups, appending a node per unpadded group and linking it, builds exactly `Chain` |
| PoemChain.LinkStep | src/gen_notes.py:193-196 | one pass of either loop: the predecessor becomes as in the full chain and the new node is the next one, not yet linked |
| PoemChain.LinkUnlinkedLast | src/gen_notes.py:190-203 | the last node is never given a successor, so the finished arena is the full chain |
| PoemChain.UnpaddedAt | src/gen_notes.py:199 | each node's text is its group without padding |
| PoemChain.SomesPad | src/gen_notes.py:199 | removing the padding gives back the lines of the group |
| PoemChain.SomesPadFrom | src/gen_notes.py:199 | removing the padding of any suffix of a padded group keeps exactly its lines |
| PoemChain.NodeTextsConcat | src/gen_notes.py:191-203 | for `group_lines >= 1` the node texts, concatenated, are exactly the input lines, without padding |
| PoemChain.GroupsConcat | src/gen_notes.py:197-199 | for group sizes of 2 or more the unpadded groups, concatenated, are the input lines |
| PoemChain.UnpaddedStep | src/gen_notes.py:171-177 | past the first group of n lines, the unpadded groups are those of the remaining lines |
| PoemChain.ConcatFront | src/gen_notes.py:199 | the first lines put back in front of the rest give the whole |
| PoemChain.SinglesConcat | src/gen_notes.py:191-196 | with one line per node the node texts are the input lines |
| PoemChain.NodeCount | src/gen_notes.py:191-203 | `group_lines == 1` gives one node per line, `g > 1` gives ceil(len/g) nodes, and `g <= 0` gives none |
| PoemChain.NodeSizes | src/gen_notes.py:191-203 | every node holds between one and `group_lines` lines |
| PoemChain.SpanCons | src/gen_notes.py:107-113 | a run of node texts is the first node's text followed by the rest |
| PoemChain.ContextRecursing | src/gen_notes.py:101-107 | a recursing context call at node j gives the texts of nodes j-m..j, from the `Beginning` when the history is shorter or m < 0 |
| PoemChain.GetContext | src/gen_notes.py:101-107 | `_get_context`, with `Beginning` giving its own text; ContextIsSpan, ContextZeroIsOwnText and ContextNegativeIsHistory state which nodes it returns |
| PoemChain.GetText | src/gen_notes.py:109-113 | `_get_text` of a line node; TextIsSpan states that it is the nodes from k up to `RecitationEnd`, running to the end for a count of 0 or less |
| PoemChain.ContextIsSpan | src/gen_notes.py:101-107 | for c >= 1 the context of node k is the texts of nodes max(0,k-c)..k-1 in order (node 0 contributes `[Beginning]`), never node k's own |
| PoemChain.ContextZeroIsOwnText | src/gen_notes.py:102-103 | with zero context lines the context is the node's own text |
| PoemChain.ContextNegativeIsHistory | src/gen_notes.py:101-107 | with a negative context count the context is everything from the `Beginning` up to the node |
| PoemChain.TextIsSpan | src/gen_notes.py:109-113 | the recitation of node k is the texts of nodes k..min(k+r-1,n) for r >= 1, and runs to the end of the poem for r <= 0 |
| PoemChain.TextIsSpanLast | src/gen_notes.py:109-110 | a recitation that stops at its node is that node's text |
| PoemChain.TextIsSpanStep | src/gen_notes.py:109-113 | a recitation that goes on is the node's text followed by its successor's recitation of one line fewer, ending at the same node |
| PoemChain.GetTextStep | src/gen_notes.py:112-113 | a recitation that goes on continues at the next node with one line fewer |
| PoemChain.GetTextLast | src/gen_notes.py:109-110 | with one line to recite, or at the last node, the recitation is the node's own text |
| PoemChain.SpanIsConcat | src/gen_notes.py:109-113 | the texts of nodes k to the end are the concatenation of those nodes' texts |
| PoemChain.ChainHoldsPoem | src/gen_notes.py:180-203 | for `group_lines >= 1` the whole chain holds exactly the poem, and reciting from node 1 to the end gives it back |
| PoemChain.PromptCountsPhysicalLines | src/gen_notes.py:115-123 | the prompt is `None` exactly when the recitation has one physical line, and otherwise is `[...N]` with N its count of physical lines |
| PoemChain.GetPrompt | src/gen_notes.py:115-123 | `_get_prompt`: nothing for one physical line, otherwise `[...N]`; PromptCountsPhysicalLines states that N is the recitation's length |
| PoemChain.PromptsDistinguishCounts | src/gen_notes.py:119-123 | recitations of different lengths get different prompts |
| PoemChain.FormatLinesAppend | src/gen_notes.py:31-35 | formatting distributes over concatenation of line lists |
| PoemChain.FormatLines | src/gen_notes.py:31-35 | `_format_context` and `_format_text`: each line wrapped in a paragraph and joined; FormatLinesAppend and FormatLinesLength state its shape |
| PoemChain.FormatLinesLength | src/gen_notes.py:31-35 | each line is wrapped in `<p>…</p>` with no escaping: seven characters are added per line |
| NoteEmission.EmptyFields | src/gen_notes.py:262 | a new note has exactly the note type's fields, all empty |
| NoteEmission.Note.SetField | src/gen_notes.py:22-29 | `note[name] = value` succeeds exactly for an existing field and changes only that field; otherwise it is the KeyError and nothing changes |
| NoteEmission.Collection.AddNote | src/gen_notes.py:264 | the note's fields and tags are appended to the collection |
| NoteEmission.ApplyAllKeepsFieldNames | src/gen_notes.py:22-29 | assigning fields never adds or removes a field |
| NoteEmission.ApplyAllFailsAtFirstMissing | src/gen_notes.py:22-29 | assignment fails exactly when some assigned field is missing, and then reports the first one, all earlier ones being present |
| NoteEmission.ApplyAllValues | src/gen_notes.py:22-29 | when every assigned field exists, each gets its assigned value and the others keep theirs |
| NoteEmission.Assignments | src/gen_notes.py:22-29 | the (field, value) pairs `populate_note` sets on node k, in its order, Prompt only when there is a prompt; FieldAssignmentsDistinct and NoteOfNode state their meaning |
| NoteEmission.FieldAssignments | src/gen_notes.py:22-29 | the field/value pairs `populate_note` assigns, in its order, with Prompt only when there is a prompt; FieldAssignmentsDistinct states that no field is assigned twice |
| NoteEmission.ApplyAll | src/gen_notes.py:22-29 | the assignments made one by one, stopping at the first missing field with KeyError; ApplyAllValues, ApplyAllFailsAtFirstMissing and ApplyAllKeepsFieldNames state its meaning |
| NoteEmission.PopulateNote | src/gen_notes.py:15-29 | the deck id and tags are set and the fields are assigned in order: Title, Author, Sequence, Context, Line, then Prompt if there is one, stopping at the first missing field |
| NoteEmission.Outcomes | src/gen_notes.py:261-263 | one note outcome per node, node k's at position k-1 |
| NoteEmission.AddNotes | src/gen_notes.py:246-266 | the notes of the nodes are appended in sequence order, and the result is their count; at a missing field the earlier notes stay added and the error is returned |
| NoteEmission.AddChainNotes | src/gen_notes.py:260-266 | the loop over an already-built chain appends exactly the emitted notes and counts them |
| NoteEmission.EmitStopped | src/gen_notes.py:261-265 | after a failure, no later node adds a note |
| NoteEmission.FieldAssignmentsDistinct | src/gen_notes.py:22-29 | no field is assigned twice |
| NoteEmission.FilledFields | src/gen_notes.py:15-29 | on a fresh note whose type has all six LPCG fields, populating never fails, keeps exactly the type's fields, gives Title, Author, Sequence, Context and Line their values, and Prompt its value or the empty string when there is no prompt |
| NoteEmission.FilledWithoutPrompt | src/gen_notes.py:22-29 | without a prompt, the five fields other than Prompt suffice: populating does not fail |
| NoteEmission.SequenceOfNode | src/gen_notes.py:24 | with all six fields, node k's note is complete and its Sequence is `str(k)` |
| NoteEmission.OneLineNoteComplete | src/gen_notes.py:27-29 | a one-line node reciting one line has no prompt, so five fields complete its note |
| NoteEmission.MissingFieldIsAssigned | src/gen_notes.py:22-29 | a note that cannot be populated names a field that its type lacks and that `populate_note` assigns, and that field is Prompt only when the node has a prompt |
| NoteEmission.AddOutcomeNotes | src/gen_notes.py:260-266 | the loop body makes a fresh note, populates it and adds it, or returns the missing field; over the outcomes of the nodes it appends exactly the emitted notes and counts them |
| NoteEmission.EmitStopsAt | src/gen_notes.py:263-265 | a note lacking a field stops the run: the notes before it are all the run adds |
| NoteEmission.EmitGoesOn | src/gen_notes.py:263-264 | a complete note is added after the notes before it |
| NoteEmission.OutcomesUpTo | src/gen_notes.py:261-263 | the outcomes of the first j nodes, node k's at position k-1 |
| NoteEmission.NoteOfNode | src/gen_notes.py:15-35 | with all six LPCG fields, node k's note has Title, Author, `Sequence == str(k)`, `<p>`-wrapped context and recitation, and Prompt set only when there is a prompt |
| NoteEmission.EmitShape | src/gen_notes.py:260-266 | the notes emitted are those of the first nodes, in order, all with the given tags; without failure there is one per node, and with one the failing node's error is returned |
| NoteEmission.Emitted | src/gen_notes.py:260-266 | the notes `add_notes` adds over the whole chain and the field that stopped it; EmitShape, AllNotesEmitted and MissingFieldKeepsEarlierNotes state its meaning |
| NoteEmission.NoteFor | src/gen_notes.py:262-263 | node k's note populated on a fresh note of the type, with the field it lacked; NoteOfNode and MissingFieldIsAssigned state its meaning |
| NoteEmission.EmitUpTo | src/gen_notes.py:260-266 | the notes the loop has added after its first j iterations, and the field that stopped it; EmitStopsAt, EmitGoesOn and EmitStopped state how each iteration extends it |
| NoteEmission.AllNotesEmitted | src/gen_notes.py:246-266 | with all LPCG fields there is exactly one note per node, in sequence order, the i-th with `Sequence == str(i)` and the given tags |
| NoteEmission.PromptNeededOnlyForLongRecitations | src/gen_notes.py:27-29 | one line per node and one line recited never need the Prompt field |
| NoteEmission.MissingFieldKeepsEarlierNotes | src/gen_notes.py:256-266 | a failure names a field that the note type lacks and that `populate_note` assigns (Prompt only when the failing node has a prompt); it happens at a node of the chain, and every earlier node's note was complete and stays added |
| NoteTypes.IndexOf | src/models.py:86 | `fields.index(x)` is the first position holding x, or nothing when x is absent |
| NoteTypes.ToModel | src/models.py:71-89 | `to_model` succeeds exactly when the sort field is a field; the note type has the fields in order, the styling and templates, a sort index naming the first occurrence of the sort field, and the cloze kind when asked for |
| NoteTypes.LpcgSortsBySequence | src/models.py:266 | the LPCG note type's sort index is 4, the `Sequence` field, and it is not a cloze type |
| NoteTypes.UpgradeStepShape | src/models.py:147-193 | each upgrade function appends its field (`Prompt` or `Author`), keeps sort field and kind, fails with "extra templates" exactly when there is not one template (leaving the templates alone), and otherwise leaves one template |
| NoteTypes.AnkiModel.constructor | src/models.py:78-88 | the new note type holds the given entries |
| NoteTypes.AnkiModel.AddField | src/models.py:149-150 | the field is appended and nothing else changes |
| NoteTypes.AnkiModel.UpgradeNoneToOneThreeOh | src/models.py:147-175 | the in-place edits leave the note type and the error of `UpgradedToOneThreeOh`: `Prompt` appended, the night-mode rule added if missing, every `margin-left: -30px;` removed, and the template edits only when there is one template |
| NoteTypes.UpgradedToOneThreeOh | src/models.py:147-175 | `upgrade_none_to_onethreeoh` on a note type value; UpgradeStepShape states its shape and LpcgWalkFromNone its effect on the LPCG type |
| NoteTypes.UpgradedToOneFourOh | src/models.py:178-193 | `upgrade_onethreeoh_to_onefouroh` on a note type value; UpgradeStepShape states its shape and LpcgWalkFromOneThreeOh its effect on the LPCG type |
| NoteTypes.AnkiModel.UpgradeOneThreeOhToOneFourOh | src/models.py:178-193 | the in-place edits leave the note type and the error of `UpgradedToOneFourOh`: `Author` appended, the title rule extended to the author, and the title line of both template sides gaining the author line only when there is one template |
| NoteTypes.AnkiModel.Apply | src/models.py:111 | running a table entry's function edits the note type as that upgrade function does |
| NoteTypes.ApplyStep | src/models.py:111-112 | the upgrade function named by a table entry, applied to a note type value; UpgradeStepShape states what every step does |
| NoteTypes.NightModeAddedOnce | src/models.py:153-158 | after the upgrade's check the styling contains the night-mode rule, and adding it again changes nothing |
| NoteTypes.AddNightMode | src/models.py:153-158 | the night-mode rule appended after a blank line only when the styling lacks `.nightMode .cloze`; NightModeAddedOnce states that the rule is then present and adding it again changes nothing |
| NoteTypes.WalkFollowsVersions | src/models.py:108-116 | a walk in which no upgrade function fails returns the version of the version-only walk |
| NoteTypes.NoEntryNoChange | src/models.py:108-116 | when no entry starts from the current version, the version is returned unchanged and the note type is untouched |
| NoteTypes.ChainedWalkReachesEnd | src/models.py:108-113 | in a chronological table whose entries chain, any version some entry starts from walks to the last entry's target |
| NoteTypes.CanUpgrade | src/models.py:130-139 | `can_upgrade` is true exactly when the version is not the current one and some entry starts from it |
| NoteTypes.IsAtVersion | src/models.py:142-144 | `is_at_version`: the version given is the definition's version; CanUpgrade and EnsureNoteType state how it decides |
| NoteTypes.UpgradeFrom | src/models.py:92-116 | the upgrade functions run in place in table order, each only when the version reached equals its source version; the version reached is returned, and the note type is saved exactly when that version differs from the starting one; a failing function stops the walk with its message, leaving its and earlier edits unsaved |
| NoteTypes.Walk | src/models.py:109-113 | the loop of `upgrade_from` over a prefix of the table; WalkStep, WalkStopsAfterError, WalkFollowsVersions and WalkAppendsFields state its meaning |
| NoteTypes.UpgradeEntry | src/models.py:110-113 | one pass of the loop runs the entry's upgrade function only when its source version is the version reached, and the walk takes one more entry |
| NoteTypes.WalkStep | src/models.py:110-113 | the walk over one more entry: unchanged after a failure or when the entry's source is not the version reached, otherwise the entry's function applied and its target reached |
| NoteTypes.WalkAppendsFields | src/models.py:108-113 | however the walk goes, fields are only appended, so the sort index still names the same field, and the kind is kept |
| NoteTypes.WalkStopsAfterError | src/models.py:111 | once an upgrade function fails, no later entry runs |
| NoteTypes.LpcgTableChained | src/models.py:268-272 | the LPCG table chains `none` to `1.3.0` to `1.4.0`, ending at the current version |
| NoteTypes.LpcgUpgradable | src/models.py:268-272 | exactly `none` and `1.3.0` have an upgrade, and neither is the current version |
| NoteTypes.LpcgVersionWalk | src/models.py:268-272 | `none` and `1.3.0` walk to `1.4.0`; every other version, `1.4.0` included, stays as it is |
| NoteTypes.LpcgWalkFromNone | src/models.py:268-272 | from `none`, a note type with one template passes through both upgrade functions in order, gaining `Prompt` and then `Author` |
| NoteTypes.LpcgWalkFromOneThreeOh | src/models.py:268-272 | from `1.3.0` only the second upgrade function runs, adding `Author` |
| NoteTypes.LpcgWalkFailsOnExtraTemplates | src/models.py:268-272 | without exactly one template, the first upgrade function that runs adds its field and then fails with "extra templates", the templates untouched |
| NoteTypes.EnsureNoteType | src/models.py:275-308 | a missing note type is created and its current version recorded; an upgradable one is upgraded in place only if the user agrees, recording the new version unless an upgrade function failed; a declined upgrade changes nothing; a note type at an unknown version fails with the out-of-date message |
| NoteTypes.NoteTypeStore.constructor | src/models.py:280-289 | the part of the collection `ensure_note_type` reads: the LPCG note type if present, and the configuration holding its version |
| NoteTypes.ConfigVersion | src/models.py:289 | the recorded version, `none` when none is recorded; EnsureNoteType and OutOfDateNeedsStoredVersion state how it is used |
| NoteTypes.AgreedUpgradeReachesCurrent | src/models.py:289-297 | an agreed upgrade that does not fail records `1.4.0` |
| NoteTypes.OutOfDateNeedsStoredVersion | src/models.py:305-308 | the out-of-date failure happens only with a recorded version other than `none`, `1.3.0` and `1.4.0`; a missing version counts as `none`, which is upgradable |

## Left out

- Reading the poem file, the Qt dialog, the add-on menu, the configuration lookup and the duplicate-title search are not part of this model. They are user interface and host I/O.
- `str.splitlines` is not modelled. The input is a sequence of lines without line feeds. Its treatment of `\r`, form feeds and Unicode line separators is therefore not captured.
- Cleanse.WrapIndent: follows `.` and `$` of Python regular expressions only as far as a single line feed inside a marker. Other regular-expression behaviour is not modelled.
- The host's note, note type and collection APIs are modelled only as far as the code uses them:
  - `note_constructor` and `col.models.by_name("LPCG 1.0")` are replaced by a given note type object;
  - `note.note_type()['did']` becomes a field of that object;
  - `col.addNote` appends the note's fields and tags.
- The AssertionError of `Beginning.populate_note` and the NotImplementedError of `Beginning._get_text` are not modelled. The model only ever asks content nodes, as `add_notes` does.
- The chain is a sequence indexed by sequence number rather than objects linked by references. It does not capture object identity: `Beginning` pointing at itself as predecessor becomes index 0 with predecessor 0.
- PoemChain.GetText / PoemChain.GetContext: Python's recursion-depth limit is not modelled; recitations or contexts deep enough to raise RecursionError in the source (about 1000 nodes, for a count of 0 or less, a negative context count, or a count near 1000) succeed in the model.
- NoteTypes.ToModel: the styling and the templates are parameters, and the dedenting of the styling is not modelled. The text of the LPCG template and styling is not part of this model, beyond the strings the upgrade functions search for and insert.
- `mm.new`, `mm.add`, `mm.save`, `set_config`, `askUser` and `showInfo` are not modelled as calls. Instead:
  - the note type is a class;
  - a save is a returned flag;
  - the configuration is a map in a store object;
  - the user's answer is a parameter;
  - the success message is not modelled.
- `mm.add_field` is modelled as appending a field name, with no check for an existing field of the same name.
- `str.replace` is modelled for non-empty patterns only. All patterns the upgrade functions use are non-empty.
- NoteTypes.EnsureNoteType: the final assertion reads the recorded version again without a default. The model reuses the version read with the default `"none"`. The two agree whenever that assertion is reached, because a missing version counts as `none`, which is upgradable (`OutOfDateNeedsStoredVersion`).
- NoteTypes.UpgradeFrom: `upgrade_from` raises when an upgrade function fails. The model returns the failure as `Err` and keeps the partly edited note type in memory, unsaved.
- The assertions that Anki is initialised are not modelled.
