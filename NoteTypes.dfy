/**
  The self-describing note types of `src/models.py` and the walk that
  upgrades an older LPCG note type to the current version.

  The host's note type dictionary is modelled by the entries the code
  reads or writes: styling, templates, field names, sort field and kind.
*/
module NoteTypes {
  import opened Wrappers
  import opened PyStr

  /** One card template: its question and answer formats. */
  datatype Template = Template(qfmt: string, afmt: string)

  /** The entries of a note type dictionary the code touches. */
  datatype ModelState = ModelState(css: string, tmpls: seq<Template>, fieldNames: seq<string>, sortf: nat, cloze: bool)

  /** The upgrade functions of the LPCG note type. */
  datatype UpgradeStep = NoneToOneThreeOh | OneThreeOhToOneFourOh

  /** One element of an `upgrades` tuple: from which version, to which, by which function. */
  datatype Upgrade = Upgrade(fromVersion: string, toVersion: string, step: UpgradeStep)

  /** The class attributes of a `ModelData` subclass that the logic reads. */
  datatype ModelData = ModelData(name: string, fields: seq<string>, sortField: string, isCloze: bool,
                                 version: string, upgrades: seq<Upgrade>)

  /** `LpcgOne`, the current LPCG note type. */
  const LpcgOne: ModelData := ModelData(
    "LPCG 1.0",
    ["Line", "Context", "Title", "Author", "Sequence", "Prompt"],
    "Sequence",
    false,
    "1.4.0",
    [Upgrade("none", "1.3.0", NoneToOneThreeOh), Upgrade("1.3.0", "1.4.0", OneThreeOhToOneFourOh)])

  // ---------------------------------------------------------------------
  // Creating a note type

  /** `fields.index(x)`: the first position of `x`, or nothing (the ValueError). */
  function IndexOf(s: seq<string>, x: string): (r: Option<nat>)
    ensures r.Some? ==> r.value < |s| && s[r.value] == x && forall j :: 0 <= j < r.value ==> s[j] != x
    ensures r.None? ==> x !in s
  {
    if s == [] then None
    else if s[0] == x then Some(0)
    else match IndexOf(s[1..], x)
      case None => None
      case Some(i) => Some(i + 1)
  }

  /**
    `to_model`: a note type with the definition's fields in order, the given
    styling and templates, the sort field's position as `sortf`, and the
    cloze kind when asked for; a sort field that is not a field fails.
  */
  function ToModel(md: ModelData, styling: string, templates: seq<Template>): (r: Result<ModelState, string>)
    ensures r.Ok? <==> md.sortField in md.fields
    ensures r.Ok? ==>
      && r.value.fieldNames == md.fields && r.value.css == styling && r.value.tmpls == templates
      && r.value.sortf < |md.fields| && md.fields[r.value.sortf] == md.sortField && r.value.cloze == md.isCloze
      && forall j :: 0 <= j < r.value.sortf ==> md.fields[j] != md.sortField
  {
    match IndexOf(md.fields, md.sortField)
    case None => Err("ValueError")
    case Some(i) => Ok(ModelState(styling, templates, md.fields, i, md.isCloze))
  }

  /** The LPCG note type sorts by its fifth field, `Sequence`. */
  lemma LpcgSortsBySequence(styling: string, templates: seq<Template>)
    ensures var r := ToModel(LpcgOne, styling, templates);
      r.Ok? && r.value.sortf == 4 && r.value.fieldNames[4] == "Sequence" && !r.value.cloze
  {
    var f := LpcgOne.fields;
    assert f[0] != "Sequence" && f[1] != "Sequence" && f[2] != "Sequence" && f[3] != "Sequence";
    assert f[4] == "Sequence";
  }

  // ---------------------------------------------------------------------
  // The upgrade functions

  const NightModeSelector: string := ".nightMode .cloze"
  const NightModeBlock: string := ".nightMode .cloze {\n    filter: invert(85%);\n}"
  const MarginRule: string := "margin-left: -30px;"
  const OldClozeSpan: string := "<span class=\"cloze\">[...]</span>"
  const NewClozeDiv: string := "<div class=\"cloze\">\n    {{#Prompt}}{{Prompt}}{{/Prompt}}\n    {{^Prompt}}[...]{{/Prompt}}\n</div>"
  const OldLineSpan: string := "<span class=\"cloze\">{{Line}}</span>"
  const NewLineDiv: string := "<div class=\"cloze\">{{Line}}</div>"
  const OldTitleRule: string := ".title {"
  const NewTitleRule: string := ".title, .author {"
  const TitleDiv: string := "<div class=\"title\">{{Title}} {{Sequence}}</div>"
  const TitleAndAuthorDiv: string := "<div class=\"title\">{{Title}} {{Sequence}}</div>\n{{#Author}}<div class=\"author\">{{Author}}</div>{{/Author}}"
  const ExtraTemplates: string := "LPCG note type has extra templates!"

  /** What an upgrade function leaves behind: the note type, and the failed assertion's message if it failed. */
  datatype StepResult = StepResult(state: ModelState, error: Option<string>)

  /** The night-mode rule is appended, after a blank line, only to styling that lacks it. */
  function AddNightMode(css: string): string
  {
    if !Contains(css, NightModeSelector) then css + "\n\n" + NightModeBlock else css
  }

  /**
    `upgrade_none_to_onethreeoh`: adds the `Prompt` field, adds the
    night-mode rule if missing, removes every `margin-left: -30px;`, then
    fails unless there is exactly one template, whose cloze span becomes a
    prompt-aware block and whose answer's cloze span becomes a block.
  */
  function UpgradedToOneThreeOh(st: ModelState): StepResult
  {
    var st1 := st.(fieldNames := st.fieldNames + ["Prompt"],
                   css := ReplaceAll(AddNightMode(st.css), MarginRule, ""));
    if |st.tmpls| != 1 then StepResult(st1, Some(ExtraTemplates))
    else
      var t := st.tmpls[0];
      StepResult(st1.(tmpls := [Template(ReplaceAll(t.qfmt, OldClozeSpan, NewClozeDiv),
                                         ReplaceAll(t.afmt, OldLineSpan, NewLineDiv))]), None)
  }

  /**
    `upgrade_onethreeoh_to_onefouroh`: adds the `Author` field, styles the
    author like the title, then fails unless there is exactly one template,
    on both sides of which the title line gains the author line.
  */
  function UpgradedToOneFourOh(st: ModelState): StepResult
  {
    var st1 := st.(fieldNames := st.fieldNames + ["Author"],
                   css := ReplaceAll(st.css, OldTitleRule, NewTitleRule));
    if |st.tmpls| != 1 then StepResult(st1, Some(ExtraTemplates))
    else
      var t := st.tmpls[0];
      StepResult(st1.(tmpls := [Template(ReplaceAll(t.qfmt, TitleDiv, TitleAndAuthorDiv),
                                         ReplaceAll(t.afmt, TitleDiv, TitleAndAuthorDiv))]), None)
  }

  function ApplyStep(step: UpgradeStep, st: ModelState): StepResult
  {
    match step
    case NoneToOneThreeOh => UpgradedToOneThreeOh(st)
    case OneThreeOhToOneFourOh => UpgradedToOneFourOh(st)
  }

  /** The field an upgrade function adds. */
  function AddedField(step: UpgradeStep): string {
    match step
    case NoneToOneThreeOh => "Prompt"
    case OneThreeOhToOneFourOh => "Author"
  }

  /**
    Each upgrade function appends its field and keeps sort field and kind;
    it fails exactly when there is not one template, and then leaves the
    templates alone; otherwise one template remains.
  */
  lemma UpgradeStepShape(step: UpgradeStep, st: ModelState)
    ensures var sr := ApplyStep(step, st);
      && sr.state.fieldNames == st.fieldNames + [AddedField(step)]
      && sr.state.sortf == st.sortf && sr.state.cloze == st.cloze
      && (sr.error.Some? <==> |st.tmpls| != 1)
      && (sr.error.Some? ==> sr.error == Some(ExtraTemplates) && sr.state.tmpls == st.tmpls)
      && (sr.error.None? ==> |sr.state.tmpls| == 1)
  {
  }

  /** The note type dictionary the upgrade functions edit in place. */
  class AnkiModel {
    var css: string
    var tmpls: seq<Template>
    var fieldNames: seq<string>
    var sortf: nat
    var cloze: bool

    constructor (st: ModelState)
      ensures State() == st
    {
      css, tmpls, fieldNames, sortf, cloze := st.css, st.tmpls, st.fieldNames, st.sortf, st.cloze;
    }

    function State(): ModelState
      reads this
    {
      ModelState(css, tmpls, fieldNames, sortf, cloze)
    }

    /** `mm.add_field(mod, mm.new_field(name))`: the field is appended. */
    method AddField(name: string)
      modifies this
      ensures State() == old(State()).(fieldNames := old(fieldNames) + [name])
    {
      fieldNames := fieldNames + [name];
    }

    /** `upgrade_none_to_onethreeoh`, editing this note type in place. */
    method UpgradeNoneToOneThreeOh() returns (error: Option<string>)
      modifies this
      ensures StepResult(State(), error) == UpgradedToOneThreeOh(old(State()))
    {
      AddField("Prompt");
      if !Contains(css, NightModeSelector) {
        css := css + "\n\n";
        css := css + NightModeBlock;
      }
      css := ReplaceAll(css, MarginRule, "");
      if |tmpls| != 1 {
        return Some(ExtraTemplates);
      }
      tmpls := tmpls[0 := tmpls[0].(qfmt := ReplaceAll(tmpls[0].qfmt, OldClozeSpan, NewClozeDiv))];
      tmpls := tmpls[0 := tmpls[0].(afmt := ReplaceAll(tmpls[0].afmt, OldLineSpan, NewLineDiv))];
      error := None;
    }

    /** `upgrade_onethreeoh_to_onefouroh`, editing this note type in place. */
    method UpgradeOneThreeOhToOneFourOh() returns (error: Option<string>)
      modifies this
      ensures StepResult(State(), error) == UpgradedToOneFourOh(old(State()))
    {
      AddField("Author");
      css := ReplaceAll(css, OldTitleRule, NewTitleRule);
      if |tmpls| != 1 {
        return Some(ExtraTemplates);
      }
      tmpls := tmpls[0 := tmpls[0].(qfmt := ReplaceAll(tmpls[0].qfmt, TitleDiv, TitleAndAuthorDiv))];
      tmpls := tmpls[0 := tmpls[0].(afmt := ReplaceAll(tmpls[0].afmt, TitleDiv, TitleAndAuthorDiv))];
      error := None;
    }

    method Apply(step: UpgradeStep) returns (error: Option<string>)
      modifies this
      ensures StepResult(State(), error) == ApplyStep(step, old(State()))
    {
      match step
      case NoneToOneThreeOh => error := UpgradeNoneToOneThreeOh();
      case OneThreeOhToOneFourOh => error := UpgradeOneThreeOhToOneFourOh();
    }
  }

  /** Once added, the night-mode rule is present, and adding it again changes nothing. */
  lemma NightModeAddedOnce(css: string)
    ensures Contains(AddNightMode(css), NightModeSelector)
    ensures AddNightMode(AddNightMode(css)) == AddNightMode(css)
  {
    if !Contains(css, NightModeSelector) {
      var t := css + "\n\n" + NightModeBlock;
      var i := |css| + 2;
      assert t[i..i + |NightModeSelector|] == NightModeSelector by {
        forall k | 0 <= k < |NightModeSelector|
          ensures t[i + k] == NightModeSelector[k]
        {
          assert t[i + k] == NightModeBlock[k];
        }
      }
      assert OccursAt(t, NightModeSelector, i);
    }
  }

  // ---------------------------------------------------------------------
  // Walking the upgrade table

  /** Where the walk stands: the version reached, the note type, and the failure that stopped it. */
  datatype WalkState = WalkState(at: string, state: ModelState, error: Option<string>)

  /**
    The first `|ups|` iterations of the loop in `upgrade_from`: each entry
    whose source version is the version reached so far runs and moves the
    version on; a failing upgrade function stops the walk.
  */
  function Walk(ups: seq<Upgrade>, start: string, st: ModelState): WalkState
    decreases |ups|
  {
    if ups == [] then WalkState(start, st, None)
    else
      var w := Walk(ups[..|ups| - 1], start, st);
      var u := ups[|ups| - 1];
      if w.error.Some? || w.at != u.fromVersion then w
      else
        var sr := ApplyStep(u.step, w.state);
        WalkState(u.toVersion, sr.state, sr.error)
  }

  /** The versions alone: the version `upgrade_from` returns when no upgrade function fails. */
  function VersionWalk(ups: seq<Upgrade>, v: string): string
    decreases |ups|
  {
    if ups == [] then v
    else
      var at := VersionWalk(ups[..|ups| - 1], v);
      if at == ups[|ups| - 1].fromVersion then ups[|ups| - 1].toVersion else at
  }

  /** A walk that does not fail reaches the version of the version-only walk. */
  lemma {:induction false} WalkFollowsVersions(ups: seq<Upgrade>, start: string, st: ModelState)
    ensures Walk(ups, start, st).error.None? ==> Walk(ups, start, st).at == VersionWalk(ups, start)
    decreases |ups|
  {
    if ups != [] {
      var w := Walk(ups[..|ups| - 1], start, st);
      WalkFollowsVersions(ups[..|ups| - 1], start, st);
      if w.error.Some? {
        assert Walk(ups, start, st) == w;
      }
    }
  }

  /** Whether some entry of the table starts at `v`. */
  predicate HasUpgradeFrom(ups: seq<Upgrade>, v: string) {
    exists i :: 0 <= i < |ups| && ups[i].fromVersion == v
  }

  /** A walk from a version no entry starts at leaves both version and note type alone. */
  lemma {:induction false} NoEntryNoChange(ups: seq<Upgrade>, start: string, st: ModelState)
    requires !HasUpgradeFrom(ups, start)
    ensures Walk(ups, start, st) == WalkState(start, st, None)
    ensures VersionWalk(ups, start) == start
    decreases |ups|
  {
    if ups != [] {
      var pre := ups[..|ups| - 1];
      assert !HasUpgradeFrom(pre, start) by {
        forall i | 0 <= i < |pre| ensures pre[i].fromVersion != start {
          assert pre[i] == ups[i];
        }
      }
      NoEntryNoChange(pre, start, st);
      assert ups[|ups| - 1].fromVersion != start;
    }
  }

  /** Each entry leads to the version the next one starts from. */
  predicate Chained(ups: seq<Upgrade>) {
    forall i :: 0 <= i < |ups| - 1 ==> ups[i].toVersion == ups[i + 1].fromVersion
  }

  /**
    In a chained table, starting at any version some entry starts from, the
    walk runs every later entry and ends at the last entry's version.
  */
  lemma {:induction false} ChainedWalkReachesEnd(ups: seq<Upgrade>, v: string)
    requires Chained(ups) && HasUpgradeFrom(ups, v)
    ensures VersionWalk(ups, v) == ups[|ups| - 1].toVersion
    decreases |ups|
  {
    var n := |ups|;
    var pre := ups[..n - 1];
    assert Chained(pre) by {
      forall i | 0 <= i < |pre| - 1 ensures pre[i].toVersion == pre[i + 1].fromVersion {
        assert pre[i] == ups[i] && pre[i + 1] == ups[i + 1];
      }
    }
    if HasUpgradeFrom(pre, v) {
      ChainedWalkReachesEnd(pre, v);
      assert VersionWalk(pre, v) == ups[n - 2].toVersion == ups[n - 1].fromVersion;
    } else {
      NoEntryNoChange(pre, v, ModelState("", [], [], 0, false));
      forall j | 0 <= j < n - 1 ensures ups[j].fromVersion != v {
        assert ups[j] == pre[j];
      }
    }
  }

  /** `is_at_version`. */
  predicate IsAtVersion(md: ModelData, v: string) {
    v == md.version
  }

  /**
    `can_upgrade`: true exactly when the version is not the current one and
    some entry of the table starts from it.
  */
  method CanUpgrade(md: ModelData, current: string) returns (r: bool)
    ensures r <==> !IsAtVersion(md, current) && HasUpgradeFrom(md.upgrades, current)
  {
    if IsAtVersion(md, current) {
      return false;
    }
    var i := 0;
    while i < |md.upgrades|
      invariant 0 <= i <= |md.upgrades|
      invariant forall j :: 0 <= j < i ==> md.upgrades[j].fromVersion != current
    {
      if md.upgrades[i].fromVersion == current {
        return true;
      }
      i := i + 1;
    }
    return false;
  }

  /**
    One pass of the loop of `upgrade_from`: entry `i` runs when its source
    version is the version reached, and the walk takes one more entry.
  */
  method UpgradeEntry(model: AnkiModel, ups: seq<Upgrade>, i: nat, current: string, ghost st0: ModelState, at: string)
    returns (next: string, err: Option<string>)
    requires i < |ups| && Walk(ups[..i], current, st0) == WalkState(at, model.State(), None)
    modifies model
    ensures Walk(ups[..i + 1], current, st0) == WalkState(next, model.State(), err)
  {
    WalkStep(ups, i, current, st0);
    next, err := at, None;
    if at == ups[i].fromVersion {
      err := model.Apply(ups[i].step);
      next := ups[i].toVersion;
    }
  }

  /**
    `upgrade_from`: runs the table's upgrade functions on the note type in
    place, in order, each whose source version is the version reached; a
    failing one stops the walk with its message, leaving its own and the
    earlier edits in the note type but saving nothing; otherwise the note
    type is saved exactly when the version moved, and the version reached
    is returned.
  */
  method UpgradeFrom(model: AnkiModel, md: ModelData, current: string) returns (r: Result<string, string>, saved: bool)
    modifies model
    ensures model.State() == Walk(md.upgrades, current, old(model.State())).state
    ensures var w := Walk(md.upgrades, current, old(model.State()));
      if w.error.Some? then r == Err(w.error.value) && !saved
      else r == Ok(w.at) && saved == (w.at != current)
  {
    var ups := md.upgrades;
    ghost var st0 := model.State();
    var at := current;
    var err: Option<string> := None;
    var i := 0;
    while i < |ups| && err.None?
      invariant 0 <= i <= |ups|
      invariant Walk(ups[..i], current, st0) == WalkState(at, model.State(), err)
    {
      at, err := UpgradeEntry(model, ups, i, current, st0, at);
      i := i + 1;
    }
    ghost var w := Walk(ups, current, st0);
    if err.Some? {
      WalkStopsAfterError(ups, i, current, st0);
    } else {
      assert ups[..i] == ups;
    }
    assert w == WalkState(at, model.State(), err);
    r, saved := if err.Some? then Err(err.value) else Ok(at), err.None? && at != current;
  }

  /**
    However the walk goes, fields are only ever appended, so the sort field
    still names the same field, and the kind is kept.
  */
  lemma {:induction false} WalkAppendsFields(ups: seq<Upgrade>, start: string, st: ModelState)
    ensures var w := Walk(ups, start, st);
      && |st.fieldNames| <= |w.state.fieldNames| && w.state.fieldNames[..|st.fieldNames|] == st.fieldNames
      && w.state.sortf == st.sortf && w.state.cloze == st.cloze
    decreases |ups|
  {
    if ups != [] {
      var w := Walk(ups[..|ups| - 1], start, st);
      WalkAppendsFields(ups[..|ups| - 1], start, st);
      var u := ups[|ups| - 1];
      if w.error.None? && w.at == u.fromVersion {
        UpgradeStepShape(u.step, w.state);
        var f := ApplyStep(u.step, w.state).state.fieldNames;
        assert f == w.state.fieldNames + [AddedField(u.step)];
        assert f[..|st.fieldNames|] == w.state.fieldNames[..|st.fieldNames|];
      }
    }
  }

  /** One more entry of the table handled by the walk. */
  lemma WalkStep(ups: seq<Upgrade>, i: nat, start: string, st: ModelState)
    requires i < |ups|
    ensures var w := Walk(ups[..i], start, st);
      var u := ups[i];
      Walk(ups[..i + 1], start, st) ==
        if w.error.Some? || w.at != u.fromVersion then w
        else WalkState(u.toVersion, ApplyStep(u.step, w.state).state, ApplyStep(u.step, w.state).error)
  {
    assert ups[..i + 1][..i] == ups[..i];
  }

  /** After a failure, later entries change nothing. */
  lemma {:induction false} WalkStopsAfterError(ups: seq<Upgrade>, n: nat, start: string, st: ModelState)
    requires n <= |ups| && Walk(ups[..n], start, st).error.Some?
    ensures Walk(ups, start, st) == Walk(ups[..n], start, st)
    decreases |ups| - n
  {
    if n < |ups| {
      assert ups[..n + 1][..n] == ups[..n];
      WalkStopsAfterError(ups, n + 1, start, st);
    } else {
      assert ups[..n] == ups;
    }
  }

  // ---------------------------------------------------------------------
  // The LPCG table

  /** The LPCG table is chained and ends at the current version. */
  lemma LpcgTableChained()
    ensures Chained(LpcgOne.upgrades)
    ensures LpcgOne.upgrades[|LpcgOne.upgrades| - 1].toVersion == LpcgOne.version
  {
  }

  /** Exactly the unversioned note type and version 1.3.0 have an upgrade. */
  lemma LpcgUpgradable(v: string)
    ensures HasUpgradeFrom(LpcgOne.upgrades, v) <==> v == "none" || v == "1.3.0"
    ensures !IsAtVersion(LpcgOne, "none") && !IsAtVersion(LpcgOne, "1.3.0")
  {
    var ups := LpcgOne.upgrades;
    if HasUpgradeFrom(ups, v) {
      var i :| 0 <= i < |ups| && ups[i].fromVersion == v;
      assert i == 0 || i == 1;
    }
    if v == "none" {
      assert ups[0].fromVersion == v;
    }
    if v == "1.3.0" {
      assert ups[1].fromVersion == v;
    }
  }

  /** Every upgradable LPCG version walks to the current one; any other stays put. */
  lemma LpcgVersionWalk(v: string)
    ensures VersionWalk(LpcgOne.upgrades, v) == if v == "none" || v == "1.3.0" then LpcgOne.version else v
  {
    LpcgUpgradable(v);
    if v == "none" || v == "1.3.0" {
      LpcgTableChained();
      ChainedWalkReachesEnd(LpcgOne.upgrades, v);
    } else {
      NoEntryNoChange(LpcgOne.upgrades, v, ModelState("", [], [], 0, false));
    }
  }

  /**
    From an unversioned note type with one template both upgrade functions
    run, in order, adding `Prompt` and then `Author`.
  */
  lemma LpcgWalkFromNone(st: ModelState)
    requires |st.tmpls| == 1
    ensures var w := Walk(LpcgOne.upgrades, "none", st);
      && w.error.None? && w.at == LpcgOne.version
      && w.state == UpgradedToOneFourOh(UpgradedToOneThreeOh(st).state).state
      && w.state.fieldNames == st.fieldNames + ["Prompt", "Author"]
  {
    var ups := LpcgOne.upgrades;
    assert ups[..1][..0] == [];
    assert ups[..2][..1] == ups[..1];
    assert ups[..2] == ups;
  }

  /** From version 1.3.0 only the second upgrade function runs. */
  lemma LpcgWalkFromOneThreeOh(st: ModelState)
    requires |st.tmpls| == 1
    ensures var w := Walk(LpcgOne.upgrades, "1.3.0", st);
      && w.error.None? && w.at == LpcgOne.version
      && w.state == UpgradedToOneFourOh(st).state
      && w.state.fieldNames == st.fieldNames + ["Author"]
  {
    var ups := LpcgOne.upgrades;
    assert ups[..1][..0] == [];
    assert ups[..2][..1] == ups[..1];
    assert ups[..2] == ups;
  }

  /**
    A note type without exactly one template fails at the first upgrade
    function that runs, after that function has added its field.
  */
  lemma LpcgWalkFailsOnExtraTemplates(st: ModelState, v: string)
    requires |st.tmpls| != 1 && (v == "none" || v == "1.3.0")
    ensures var w := Walk(LpcgOne.upgrades, v, st);
      && w.error == Some(ExtraTemplates)
      && w.state.fieldNames == st.fieldNames + [if v == "none" then "Prompt" else "Author"]
      && w.state.tmpls == st.tmpls
  {
    var ups := LpcgOne.upgrades;
    assert ups[..1][..0] == [];
    assert ups[..2][..1] == ups[..1];
    assert ups[..2] == ups;
  }

  // ---------------------------------------------------------------------
  // Making sure the collection holds a current LPCG note type

  /** The configuration key holding the LPCG note type's version. */
  const VersionKey: string := "lpcg_model_version"

  const OutOfDate: string := "Your LPCG model is out of date, but I couldn't find a valid upgrade path. You are likely to encounter issues. Please contact the developer for assistance resolving this problem."

  /** `get_config('lpcg_model_version', default="none")`. */
  function ConfigVersion(config: map<string, string>): string {
    if VersionKey in config then config[VersionKey] else "none"
  }

  /** How `ensure_note_type` returned normally. */
  datatype Ensured = Created | Upgraded | Postponed | AlreadyCurrent

  /** The part of the collection `ensure_note_type` reads and writes. */
  class NoteTypeStore {
    /** The note type named "LPCG 1.0", if the collection has one. */
    var lpcg: AnkiModel?
    var config: map<string, string>

    constructor (lpcg: AnkiModel?, config: map<string, string>)
      ensures this.lpcg == lpcg && this.config == config
    {
      this.lpcg := lpcg;
      this.config := config;
    }
  }

  /**
    `ensure_note_type`: a collection without the note type gets a fresh
    current one and its version; an upgradable one is upgraded in place if
    the user agrees, and its new version recorded unless an upgrade
    function failed; a declined upgrade changes nothing; a note type at
    no known version fails with the out-of-date message.
  */
  method EnsureNoteType(store: NoteTypeStore, userAgrees: bool, styling: string, templates: seq<Template>)
    returns (r: Result<Ensured, string>)
    modifies store, store.lpcg
    ensures old(store.lpcg) == null ==>
      && r == Ok(Created) && store.lpcg != null && fresh(store.lpcg)
      && ToModel(LpcgOne, styling, templates) == Ok(store.lpcg.State())
      && store.config == old(store.config)[VersionKey := LpcgOne.version]
    ensures old(store.lpcg) != null ==>
      var v := ConfigVersion(old(store.config));
      var w := Walk(LpcgOne.upgrades, v, old(store.lpcg.State()));
      && store.lpcg == old(store.lpcg)
      && (if !IsAtVersion(LpcgOne, v) && HasUpgradeFrom(LpcgOne.upgrades, v) && userAgrees then
            && store.lpcg.State() == w.state
            && (if w.error.Some? then r == Err(w.error.value) && store.config == old(store.config)
                else r == Ok(Upgraded) && store.config == old(store.config)[VersionKey := w.at])
          else
            && store.lpcg.State() == old(store.lpcg.State()) && store.config == old(store.config)
            && r == (if !IsAtVersion(LpcgOne, v) && HasUpgradeFrom(LpcgOne.upgrades, v) then Ok(Postponed)
                     else if IsAtVersion(LpcgOne, v) then Ok(AlreadyCurrent) else Err(OutOfDate)))
  {
    if store.lpcg == null {
      LpcgSortsBySequence(styling, templates);
      var st := ToModel(LpcgOne, styling, templates).value;
      var model := new AnkiModel(st);
      store.lpcg := model;
      store.config := store.config[VersionKey := LpcgOne.version];
      return Ok(Created);
    }
    var v := ConfigVersion(store.config);
    var upgradable := CanUpgrade(LpcgOne, v);
    if upgradable {
      if userAgrees {
        var model := store.lpcg;
        var res, _ := UpgradeFrom(model, LpcgOne, v);
        match res
        case Err(e) => return Err(e);
        case Ok(newVersion) =>
          store.config := store.config[VersionKey := newVersion];
          return Ok(Upgraded);
      }
      return Ok(Postponed);
    }
    if !IsAtVersion(LpcgOne, v) {
      return Err(OutOfDate);
    }
    return Ok(AlreadyCurrent);
  }

  /** An upgrade the user agreed to that did not fail records the current version. */
  lemma AgreedUpgradeReachesCurrent(config: map<string, string>, st: ModelState)
    requires HasUpgradeFrom(LpcgOne.upgrades, ConfigVersion(config))
    ensures var w := Walk(LpcgOne.upgrades, ConfigVersion(config), st);
      w.error.None? ==> w.at == LpcgOne.version
  {
    var v := ConfigVersion(config);
    WalkFollowsVersions(LpcgOne.upgrades, v, st);
    LpcgUpgradable(v);
    LpcgVersionWalk(v);
  }

  /**
    The out-of-date failure needs a recorded version that is neither the
    current one nor upgradable: a missing version counts as unversioned,
    which is upgradable.
  */
  lemma OutOfDateNeedsStoredVersion(config: map<string, string>)
    requires !IsAtVersion(LpcgOne, ConfigVersion(config)) && !HasUpgradeFrom(LpcgOne.upgrades, ConfigVersion(config))
    ensures VersionKey in config
    ensures config[VersionKey] != "none" && config[VersionKey] != "1.3.0" && config[VersionKey] != LpcgOne.version
  {
    LpcgUpgradable(ConfigVersion(config));
  }
}
