/** What the items of one operation are called in the directory they go to. */
module DestinationPlan {
  import opened Common
  import opened FileNames
  import opened UploadPaths

  datatype Resolution = Rename | Override | Merge

  /** What the server does with an existing destination. */
  datatype Policy = RefuseExisting | OverrideExisting | MergeExisting

  function ToExistingMode(resolution: Resolution): Policy {
    match resolution
    case Rename => RefuseExisting
    case Override => OverrideExisting
    case Merge => MergeExisting
  }

  /** What a chosen resolution amounts to for an item that can, or cannot, be merged. */
  function EffectiveResolution(resolution: Resolution, canMerge: bool): Resolution {
    if resolution == Merge && !canMerge then Rename else resolution
  }

  /** The taken names of a directory, and which of them are directories. */
  datatype Names = Names(names: set<string>, directoryNames: set<string>)

  datatype Item = Item(key: nat, name: string, entryType: EntryType, hasGeneratedName: bool, isAtDestination: bool)

  datatype Choice = Choice(name: Option<string>, resolution: Option<Resolution>)

  datatype Conflict = Conflict(existingName: string, canMerge: bool)

  datatype NameError = NameRequired | DotComponent | NotSingleComponent | UsedByAnotherItem | AlreadyExists

  datatype Row = Row(
    item: Item, value: string, finalName: string, conflict: Option<Conflict>, resolution: Resolution,
    onExisting: Policy, error: Option<NameError>)

  const NO_CHOICE := Choice(None, None)

  /** `null` while the directory is still being read. */
  function Known(destination: Option<Names>): Names {
    if destination.None? then Names({}, {}) else destination.value
  }

  function ChoiceFor(choices: map<nat, Choice>, key: nat): Choice {
    if key in choices then choices[key] else NO_CHOICE
  }

  /** `validatePathComponent` for a name that may not lead into a directory. */
  function Validate(name: string): (error: Option<NameError>)
    ensures error.None? <==> PlainComponent(name)
  {
    if name == "" then Some(NameRequired)
    else if name == "." || name == ".." then Some(DotComponent)
    else if SLASH in name then Some(NotSingleComponent)
    else None
  }

  function FindConflict(item: Item, ownName: string, destination: Names): Option<Conflict> {
    if !item.hasGeneratedName && !item.isAtDestination && ownName in destination.names then
      Some(Conflict(ownName, item.entryType == DirectoryEntry && ownName in destination.directoryNames))
    else None
  }

  function Resolve(conflict: Option<Conflict>, choice: Choice): Resolution {
    if conflict.None? then Rename
    else EffectiveResolution(if choice.resolution.Some? then choice.resolution.value else Rename, conflict.value.canMerge)
  }

  predicate EndsWith(name: string, suffix: string) {
    |suffix| <= |name| && name[|name| - |suffix|..] == suffix
  }

  /** The taken names without the suffix; names without it cannot be hit. */
  function BareNames(taken: set<string>, suffix: string): set<string> {
    if suffix == "" then taken
    else set name | name in taken && EndsWith(name, suffix) :: name[..|name| - |suffix|]
  }

  ghost function SuggestedName(item: Item, suffix: string, taken: set<string>): string {
    if item.name + suffix !in taken then item.name
    else FreeVariant(item.name, item.entryType, BareNames(taken, suffix))
  }

  /** A name that is free, the item's own one if possible. */
  method SuggestName(item: Item, suffix: string, taken: set<string>) returns (name: string)
    ensures name == SuggestedName(item, suffix, taken)
    ensures name + suffix !in taken
  {
    SuggestionIsFree(item, suffix, taken);
    if item.name + suffix !in taken {
      return item.name;
    }
    name := SuggestAvailableFileName(item.name, item.entryType, BareNames(taken, suffix));
  }

  /** A name that avoids the suffix-stripped names is still free once the suffix is appended. */
  lemma SuggestionIsFree(item: Item, suffix: string, taken: set<string>)
    ensures SuggestedName(item, suffix, taken) + suffix !in taken
  {
    var name := SuggestedName(item, suffix, taken);
    assert (name + suffix)[..|name + suffix| - |suffix|] == name;
    assert EndsWith(name + suffix, suffix);
    if suffix == "" {
      assert name + suffix == name;
    }
  }

  predicate KeepsOwnName(row: Row) {
    row.conflict.Some? && row.resolution != Rename
  }

  /** One row, given the names the rows before it use. */
  ghost function PlanRow(item: Item, choice: Choice, suffix: string, destination: Names, used: set<string>): Row {
    var ownName := item.name + suffix;
    var conflict := FindConflict(item, ownName, destination);
    var resolution := Resolve(conflict, choice);
    var keepsOwnName := conflict.Some? && resolution != Rename;
    var value :=
      if keepsOwnName then item.name
      else if choice.name.Some? then choice.name.value
      else if item.isAtDestination then item.name
      else SuggestedName(item, suffix, destination.names + used);
    var name := Trim(value);
    var finalName := name + suffix;
    var mayUseTakenName := keepsOwnName || (item.isAtDestination && finalName == ownName);
    var error :=
      if Validate(name).Some? then Validate(name)
      else if finalName in used then Some(UsedByAnotherItem)
      else if !mayUseTakenName && finalName in destination.names then Some(AlreadyExists)
      else None;
    Row(item, value, finalName, conflict, resolution,
        if conflict.None? then RefuseExisting else ToExistingMode(resolution), error)
  }

  function UsedNames(rows: seq<Row>): set<string> {
    set row | row in rows :: row.finalName
  }

  ghost function Plan(
    items: seq<Item>, destination: Option<Names>, choices: map<nat, Choice>, suffixOf: Item -> string): (rows: seq<Row>)
    ensures |rows| == |items|
  {
    if items == [] then []
    else
      var front := Plan(items[..|items| - 1], destination, choices, suffixOf);
      var item := items[|items| - 1];
      front + [PlanRow(item, ChoiceFor(choices, item.key), suffixOf(item), Known(destination), UsedNames(front))]
  }

  lemma {:induction false} PlanKeepsItems(
    items: seq<Item>, destination: Option<Names>, choices: map<nat, Choice>, suffixOf: Item -> string)
    ensures forall i :: 0 <= i < |items| ==> Plan(items, destination, choices, suffixOf)[i].item == items[i]
  {
    if items != [] {
      var front, item := Plan(items[..|items| - 1], destination, choices, suffixOf), items[|items| - 1];
      PlanKeepsItems(items[..|items| - 1], destination, choices, suffixOf);
      assert PlanRow(item, ChoiceFor(choices, item.key), suffixOf(item), Known(destination), UsedNames(front)).item == item;
      hide PlanRow;
    }
  }

  /** What the row's name is before it is trimmed. */
  method RowValue(item: Item, choice: Choice, suffix: string, destination: Names, used: set<string>, keepsOwnName: bool)
    returns (value: string)
    ensures value ==
      if keepsOwnName then item.name
      else if choice.name.Some? then choice.name.value
      else if item.isAtDestination then item.name
      else SuggestedName(item, suffix, destination.names + used)
  {
    if keepsOwnName {
      return item.name;
    }
    if choice.name.Some? {
      return choice.name.value;
    }
    if item.isAtDestination {
      return item.name;
    }
    value := SuggestName(item, suffix, destination.names + used);
  }

  method PlanItem(item: Item, choice: Choice, suffix: string, destination: Names, used: set<string>) returns (row: Row)
    ensures row == PlanRow(item, choice, suffix, destination, used)
  {
    var ownName := item.name + suffix;
    var conflict := FindConflict(item, ownName, destination);
    var resolution := Resolve(conflict, choice);
    // Any other name would replace or merge an item that was not asked about.
    var keepsOwnName := conflict.Some? && resolution != Rename;
    var value := RowValue(item, choice, suffix, destination, used, keepsOwnName);
    var name := Trim(value);
    var finalName := name + suffix;
    var mayUseTakenName := keepsOwnName || (item.isAtDestination && finalName == ownName);
    var error := Validate(name);
    if error.None? {
      error := if finalName in used then Some(UsedByAnotherItem)
        else if !mayUseTakenName && finalName in destination.names then Some(AlreadyExists)
        else None;
    }
    row := Row(item, value, finalName, conflict, resolution,
               if conflict.None? then RefuseExisting else ToExistingMode(resolution), error);
  }

  /** Plans every item in turn; each plan adds to the names the later ones avoid. */
  method PlanDestinationNames(
    items: seq<Item>, destination: Option<Names>, choices: map<nat, Choice>, suffixOf: Item -> string)
    returns (rows: seq<Row>)
    ensures rows == Plan(items, destination, choices, suffixOf)
  {
    hide PlanRow;
    var known := Known(destination);
    var usedNames: set<string> := {};
    rows := [];
    for i := 0 to |items|
      invariant rows == Plan(items[..i], destination, choices, suffixOf)
      invariant usedNames == UsedNames(rows)
    {
      var row := PlanItem(items[i], ChoiceFor(choices, items[i].key), suffixOf(items[i]), known, usedNames);
      assert items[..i + 1][..i] == items[..i];
      assert Plan(items[..i + 1], destination, choices, suffixOf) == rows + [row];
      rows := rows + [row];
      usedNames := usedNames + {row.finalName};
    }
    assert items[..|items|] == items;
  }

  // ---------------------------------------------------------------- error-free plans

  predicate ErrorFree(rows: seq<Row>) {
    forall i :: 0 <= i < |rows| ==> rows[i].error.None?
  }

  /** What an error-free row may take, and what it may do to what is already there. */
  ghost predicate SafeRow(row: Row, suffix: string, destination: Names) {
    var ownName := row.item.name + suffix;
    && (exists name :: row.finalName == name + suffix && PlainComponent(name) && TrimStable(name))
    && (row.finalName in destination.names ==> KeepsOwnName(row) || (row.item.isAtDestination && row.finalName == ownName))
    && (row.onExisting != RefuseExisting ==> KeepsOwnName(row) && row.onExisting == ToExistingMode(row.resolution))
    && (KeepsOwnName(row) ==> ownName in destination.names && row.conflict.value.existingName == ownName)
    && (row.onExisting == MergeExisting ==> row.item.entryType == DirectoryEntry && ownName in destination.directoryNames)
  }

  lemma RowIsSafe(item: Item, choice: Choice, suffix: string, destination: Names, used: set<string>)
    ensures var row := PlanRow(item, choice, suffix, destination, used);
      row.error.None? ==> SafeRow(row, suffix, destination) && row.finalName !in used
  {
    var row := PlanRow(item, choice, suffix, destination, used);
    TrimIs(row.value);
    if row.error.None? {
      assert row.finalName == Trim(row.value) + suffix;
    }
  }

  ghost predicate DistinctFinalNames(rows: seq<Row>) {
    forall i, j :: 0 <= i < j < |rows| ==> rows[i].finalName != rows[j].finalName
  }

  lemma OneMoreName(front: seq<Row>, row: Row)
    requires DistinctFinalNames(front) && row.finalName !in UsedNames(front)
    ensures DistinctFinalNames(front + [row])
  {
    forall i | 0 <= i < |front|
      ensures front[i].finalName != row.finalName
    {
      assert front[i] in front;
    }
  }

  lemma PlanMore(items: seq<Item>, destination: Option<Names>, choices: map<nat, Choice>, suffixOf: Item -> string)
    requires items != []
    ensures var n := |items| - 1;
      var front := Plan(items[..n], destination, choices, suffixOf);
      Plan(items, destination, choices, suffixOf) == front
        + [PlanRow(items[n], ChoiceFor(choices, items[n].key), suffixOf(items[n]), Known(destination), UsedNames(front))]
  {
  }

  /** Without errors the final names are distinct, and only chosen overrides and merges touch what exists. */
  lemma {:induction false} ErrorFreePlansAreSafe(
    items: seq<Item>, destination: Option<Names>, choices: map<nat, Choice>, suffixOf: Item -> string)
    requires ErrorFree(Plan(items, destination, choices, suffixOf))
    ensures var rows := Plan(items, destination, choices, suffixOf);
      DistinctFinalNames(rows) && SafeRows(rows, items, suffixOf, Known(destination))
  {
    if items != [] {
      var n := |items| - 1;
      var front := Plan(items[..n], destination, choices, suffixOf);
      var choice, suffix := ChoiceFor(choices, items[n].key), suffixOf(items[n]);
      var row := PlanRow(items[n], choice, suffix, Known(destination), UsedNames(front));
      PlanMore(items, destination, choices, suffixOf);
      hide SafeRow, SafeRows, PlanRow, Plan, UsedNames, DistinctFinalNames, Known, ErrorFree, ChoiceFor;
      FrontIsErrorFree(front, row);
      RowIsSafe(items[n], choice, suffix, Known(destination), UsedNames(front));
      ErrorFreePlansAreSafe(items[..n], destination, choices, suffixOf);
      OneMoreName(front, row);
      OneMoreSafe(front, row, items, suffixOf, Known(destination));
    }
  }

  ghost predicate SafeRows(rows: seq<Row>, items: seq<Item>, suffixOf: Item -> string, destination: Names)
    requires |rows| <= |items|
  {
    forall i :: 0 <= i < |rows| ==> SafeRow(rows[i], suffixOf(items[i]), destination)
  }

  lemma OneMoreSafe(front: seq<Row>, row: Row, items: seq<Item>, suffixOf: Item -> string, destination: Names)
    requires |front| == |items| - 1 && SafeRows(front, items[..|front|], suffixOf, destination)
    requires SafeRow(row, suffixOf(items[|front|]), destination)
    ensures SafeRows(front + [row], items, suffixOf, destination)
  {
    hide SafeRow;
    forall i | 0 <= i < |items|
      ensures SafeRow((front + [row])[i], suffixOf(items[i]), destination)
    {
      if i < |front| {
        assert SafeRow(front[i], suffixOf(items[..|front|][i]), destination);
      }
    }
  }

  lemma FrontIsErrorFree(front: seq<Row>, row: Row)
    requires ErrorFree(front + [row])
    ensures ErrorFree(front) && row.error.None?
  {
    assert forall i :: 0 <= i < |front| ==> (front + [row])[i] == front[i];
    assert (front + [row])[|front|] == row;
  }

  lemma SuffixCancels(a: string, b: string, suffix: string)
    ensures a + suffix == b + suffix ==> a == b
  {
    if a + suffix == b + suffix {
      assert |a + suffix| == |b + suffix|;
      assert a == (a + suffix)[..|a|] == (b + suffix)[..|b|] == b;
    }
  }

  /** A row that replaces or merges lands on the item it asked about exactly when the name has no space at its ends. */
  lemma LandsOnExisting(item: Item, choice: Choice, suffix: string, destination: Names, used: set<string>)
    ensures var row := PlanRow(item, choice, suffix, destination, used);
      KeepsOwnName(row) ==> (row.finalName == row.conflict.value.existingName <==> TrimStable(item.name))
  {
    var row := PlanRow(item, choice, suffix, destination, used);
    TrimIs(item.name);
    SuffixCancels(Trim(item.name), item.name, suffix);
  }

  lemma OneItemPlan(item: Item, destination: Option<Names>, choices: map<nat, Choice>, suffixOf: Item -> string)
    ensures Plan([item], destination, choices, suffixOf)
      == [PlanRow(item, ChoiceFor(choices, item.key), suffixOf(item), Known(destination), {})]
  {
    PlanMore([item], destination, choices, suffixOf);
    assert [item][..0] == [] && Plan([], destination, choices, suffixOf) == [];
    assert UsedNames([]) == {};
  }

  lemma SpaceInFront(name: string)
    requires name != "" && TrimStable(name)
    ensures Trim([' '] + name) == name && [' '] + name != name
  {
    TrimIs(name);
    assert ([' '] + name)[1..] == name;
    assert |[' '] + name| != |name|;
  }

  /** A name with a space in front: replacing the item of that name replaces another one instead. */
  lemma SpacedNameReplacesAnother(name: string)
    requires PlainComponent(name) && TrimStable(name)
    ensures var spaced := [' '] + name;
      var item := Item(1, spaced, FileEntry, false, false);
      var rows := Plan([item], Some(Names({spaced, name}, {})), map[1 := Choice(None, Some(Override))], _ => "");
      && ErrorFree(rows) && |rows| == 1 && rows[0].onExisting == OverrideExisting
      && rows[0].conflict == Some(Conflict(spaced, false)) && rows[0].finalName == name != spaced
  {
    var spaced := [' '] + name;
    var item := Item(1, spaced, FileEntry, false, false);
    SpaceInFront(name);
    hide Trim, PlainComponent, TrimStable;
    OneItemPlan(item, Some(Names({spaced, name}, {})), map[1 := Choice(None, Some(Override))], _ => "");
    OverridingRow(item, Names({spaced, name}, {}));
    hide Plan, PlanRow;
  }

  /** A file row that replaces what has its name is free of errors if the trimmed name is plain. */
  lemma OverridingRow(item: Item, destination: Names)
    requires item.entryType == FileEntry && !item.hasGeneratedName && !item.isAtDestination
    requires item.name in destination.names && PlainComponent(Trim(item.name))
    ensures var row := PlanRow(item, Choice(None, Some(Override)), "", destination, {});
      && row.error.None? && row.onExisting == OverrideExisting && row.conflict == Some(Conflict(item.name, false))
      && row.finalName == Trim(item.name)
  {
    hide Trim, PlainComponent, SuggestedName;
    assert item.name + "" == item.name && Trim(item.name) + "" == Trim(item.name);
  }

  // ---------------------------------------------------------------- plans nobody has to touch

  predicate PlainItem(item: Item) {
    PlainComponent(item.name) && TrimStable(item.name) && !item.isAtDestination
  }

  lemma DefaultRowIsFree(item: Item, suffix: string, destination: Names, used: set<string>)
    requires PlainItem(item)
    ensures PlanRow(item, NO_CHOICE, suffix, destination, used).error.None?
  {
    var row := PlanRow(item, NO_CHOICE, suffix, destination, used);
    var taken := destination.names + used;
    SuggestionIsFree(item, suffix, taken);
    assert row.value == SuggestedName(item, suffix, taken);
    if item.name + suffix in taken {
      var counter: nat :| FirstFree(item.name, item.entryType, BareNames(taken, suffix), counter)
        && row.value == Variant(item.name, item.entryType, counter);
      VariantValid(item.name, item.entryType, counter);
    }
    TrimIs(row.value);
  }

  /** Without choices every row of plain items is free of errors, whatever is taken and whatever the suffixes. */
  lemma {:induction false} DefaultPlansNeedNoUser(items: seq<Item>, destination: Option<Names>, suffixOf: Item -> string)
    requires forall i :: 0 <= i < |items| ==> PlainItem(items[i])
    ensures ErrorFree(Plan(items, destination, map[], suffixOf))
  {
    if items != [] {
      var n := |items| - 1;
      var front := Plan(items[..n], destination, map[], suffixOf);
      DefaultPlansNeedNoUser(items[..n], destination, suffixOf);
      DefaultRowIsFree(items[n], suffixOf(items[n]), Known(destination), UsedNames(front));
      hide PlanRow;
      assert Plan(items, destination, map[], suffixOf) == front + [Plan(items, destination, map[], suffixOf)[n]];
    }
  }

  /** The directory in which a name that is not plain fails: it holds the trimmed name if that could be used. */
  function FailingDestination(item: Item, suffix: string): Names {
    Names(if PlainComponent(Trim(item.name)) then {Trim(item.name) + suffix} else {}, {})
  }

  lemma NotPlainFails(item: Item, suffix: string, used: set<string>)
    requires !item.isAtDestination && !PlainItem(item) && item.name + suffix !in used
    ensures PlanRow(item, NO_CHOICE, suffix, FailingDestination(item, suffix), used).error.Some?
  {
    var row := PlanRow(item, NO_CHOICE, suffix, FailingDestination(item, suffix), used);
    TrimIs(item.name);
    SuffixCancels(Trim(item.name), item.name, suffix);
    assert item.name + suffix !in FailingDestination(item, suffix).names + used;
    assert row.value == item.name;
  }

  /** A row without choices is free of errors whatever is there and used, if and only if its item is plain. */
  lemma RowNeedsNoUserExactlyIf(item: Item, suffix: string)
    ensures (forall destination, used :: PlanRow(item, NO_CHOICE, suffix, destination, used).error.None?)
      <==> PlainItem(item)
  {
    if PlainItem(item) {
      forall destination, used
        ensures PlanRow(item, NO_CHOICE, suffix, destination, used).error.None?
      {
        DefaultRowIsFree(item, suffix, destination, used);
      }
    } else if item.isAtDestination {
      var used := {Trim(item.name) + suffix};
      assert PlanRow(item, NO_CHOICE, suffix, Names({}, {}), used).error.Some?;
    } else {
      NotPlainFails(item, suffix, {});
    }
  }

  predicate SameSuffix(items: seq<Item>, suffixOf: Item -> string, suffix: string) {
    forall i :: 0 <= i < |items| ==> suffixOf(items[i]) == suffix
  }

  /** Error-free rows that share a suffix use only names that are plain in front of it. */
  lemma {:induction false} UsedNamesArePlain(
    items: seq<Item>, destination: Option<Names>, suffixOf: Item -> string, suffix: string, name: string)
    requires SameSuffix(items, suffixOf, suffix) && ErrorFree(Plan(items, destination, map[], suffixOf))
    ensures name + suffix in UsedNames(Plan(items, destination, map[], suffixOf)) ==>
      PlainComponent(name) && TrimStable(name)
  {
    var rows := Plan(items, destination, map[], suffixOf);
    ErrorFreePlansAreSafe(items, destination, map[], suffixOf);
    hide Plan, PlanRow;
    if name + suffix in UsedNames(rows) {
      var i :| 0 <= i < |rows| && rows[i].finalName == name + suffix;
      assert SafeRow(rows[i], suffix, Known(destination));
      var plain :| rows[i].finalName == plain + suffix && PlainComponent(plain) && TrimStable(plain);
      SuffixCancels(plain, name, suffix);
    }
  }

  /** Without choices the plan is free of errors in every directory. */
  ghost predicate NeedsNoUser(items: seq<Item>, suffixOf: Item -> string) {
    forall destination :: ErrorFree(Plan(items, destination, map[], suffixOf))
  }

  lemma {:induction false} FrontNeedsNoUser(items: seq<Item>, suffixOf: Item -> string)
    requires items != [] && NeedsNoUser(items, suffixOf)
    ensures NeedsNoUser(items[..|items| - 1], suffixOf)
  {
    var n := |items| - 1;
    forall destination
      ensures ErrorFree(Plan(items[..n], destination, map[], suffixOf))
    {
      var front := Plan(items[..n], destination, map[], suffixOf);
      PlanMore(items, destination, map[], suffixOf);
      assert ErrorFree(Plan(items, destination, map[], suffixOf));
      FrontIsErrorFree(front, Plan(items, destination, map[], suffixOf)[n]);
    }
  }

  lemma {:induction false} LastFails(items: seq<Item>, suffixOf: Item -> string, suffix: string)
    requires items != [] && SameSuffix(items, suffixOf, suffix)
    requires !items[|items| - 1].isAtDestination && !PlainItem(items[|items| - 1])
    ensures !NeedsNoUser(items, suffixOf)
  {
    var n := |items| - 1;
    var destination := Some(FailingDestination(items[n], suffix));
    var front := Plan(items[..n], destination, map[], suffixOf);
    var row := PlanRow(items[n], NO_CHOICE, suffix, Known(destination), UsedNames(front));
    PlanMore(items, destination, map[], suffixOf);
    if ErrorFree(front) {
      UsedNamesArePlain(items[..n], destination, suffixOf, suffix, items[n].name);
      NotPlainFails(items[n], suffix, UsedNames(front));
    }
    hide Plan, PlanRow;
    assert ErrorFree(front + [row]) ==> ErrorFree(front) && row.error.None? by {
      if ErrorFree(front + [row]) {
        FrontIsErrorFree(front, row);
      }
    }
    assert !ErrorFree(Plan(items, destination, map[], suffixOf));
  }

  /**
   * Items that share a suffix need no choices in any directory if and only if every name is plain.
   * Items at their own destination are left out: they are given their own name.
   */
  lemma {:induction false} PlansNeedNoUserExactlyIf(items: seq<Item>, suffixOf: Item -> string, suffix: string)
    requires SameSuffix(items, suffixOf, suffix) && forall i :: 0 <= i < |items| ==> !items[i].isAtDestination
    ensures NeedsNoUser(items, suffixOf) <==> forall i :: 0 <= i < |items| ==> PlainItem(items[i])
  {
    if forall i :: 0 <= i < |items| ==> PlainItem(items[i]) {
      forall destination
        ensures ErrorFree(Plan(items, destination, map[], suffixOf))
      {
        DefaultPlansNeedNoUser(items, destination, suffixOf);
      }
    } else {
      var n := |items| - 1;
      PlansNeedNoUserExactlyIf(items[..n], suffixOf, suffix);
      hide NeedsNoUser;
      if PlainItem(items[n]) {
        assert exists i :: 0 <= i < n && !PlainItem(items[..n][i]) by {
          var i :| 0 <= i < |items| && !PlainItem(items[i]);
          assert items[..n][i] == items[i];
        }
        if NeedsNoUser(items, suffixOf) {
          FrontNeedsNoUser(items, suffixOf);
        }
      } else {
        LastFails(items, suffixOf, suffix);
      }
    }
  }

  ghost predicate VariantsPlain(item: Item) {
    forall k: nat :: k >= 2 ==>
      PlainComponent(Variant(item.name, item.entryType, k)) && TrimStable(Variant(item.name, item.entryType, k))
  }

  /** A name that is taken is varied, and its variants can be free of the spaces it has itself. */
  lemma TakenNameIsVaried(item: Item, suffix: string, destination: Names, used: set<string>)
    requires !item.isAtDestination && item.name + suffix in destination.names + used
    requires VariantsPlain(item)
    ensures PlanRow(item, NO_CHOICE, suffix, destination, used).error.None?
  {
    var row := PlanRow(item, NO_CHOICE, suffix, destination, used);
    var taken := destination.names + used;
    SuggestionIsFree(item, suffix, taken);
    var counter: nat :| FirstFree(item.name, item.entryType, BareNames(taken, suffix), counter)
      && row.value == Variant(item.name, item.entryType, counter);
    hide Variant;
    TrimIs(row.value);
  }

  lemma SpacedVariants(k: nat)
    ensures var variant := Variant("a ", FileEntry, k);
      PlainComponent(variant) && TrimStable(variant)
  {
    var variant, middle := Variant("a ", FileEntry, k), Decimal(k);
    assert StemLength("a ", FileEntry) == 2;
    assert variant == "a " + "_" + middle + "";
    assert |variant| > 2 && variant[0] == 'a' && variant[2] == '_' && variant[|variant| - 1] == middle[|middle| - 1];
    assert middle[|middle| - 1] in middle;
    assert forall c <- middle :: c != SLASH && !IsSpace(c);
  }

  lemma TwoItemPlan(a: Item, b: Item, destination: Option<Names>, suffixOf: Item -> string)
    ensures var row := PlanRow(a, NO_CHOICE, suffixOf(a), Known(destination), {});
      Plan([a, b], destination, map[], suffixOf)
        == [row, PlanRow(b, NO_CHOICE, suffixOf(b), Known(destination), {row.finalName})]
  {
    OneItemPlan(a, destination, map[], suffixOf);
    PlanMore([a, b], destination, map[], suffixOf);
    hide Plan, PlanRow;
    assert [a, b][..1] == [a];
    var row := PlanRow(a, NO_CHOICE, suffixOf(a), Known(destination), {});
    assert UsedNames([row]) == {row.finalName};
  }

  /** A plain item's own name is taken once its row was planned, by that row or by what was there. */
  lemma FirstRowTakes(item: Item, destination: Names)
    requires PlainItem(item)
    ensures var row := PlanRow(item, NO_CHOICE, "", destination, {});
      row.error.None? && item.name in destination.names + {row.finalName}
  {
    DefaultRowIsFree(item, "", destination, {});
    var row := PlanRow(item, NO_CHOICE, "", destination, {});
    assert item.name + "" == item.name && destination.names + {} == destination.names;
    TrimIs(item.name);
    assert item.name !in destination.names ==> row.value == item.name && row.finalName == Trim(item.name) + "";
  }

  /** A row whose own name is always taken by the row before it is free of errors if the variants of its name are plain. */
  lemma TakenByTheFirst(first: Item, second: Item, destination: Option<Names>, suffixOf: Item -> string)
    requires PlainItem(first) && suffixOf(first) == "" && first.name == second.name + suffixOf(second)
    requires !second.isAtDestination && VariantsPlain(second)
    ensures ErrorFree(Plan([first, second], destination, map[], suffixOf))
  {
    var names := Known(destination);
    var row := PlanRow(first, NO_CHOICE, "", names, {});
    hide PlanRow, Plan, Known, PlainItem;
    TwoItemPlan(first, second, destination, suffixOf);
    FirstRowTakes(first, names);
    TakenNameIsVaried(second, suffixOf(second), names, {row.finalName});
  }

  lemma SpacedNames()
    ensures PlainItem(Item(1, "a .x", FileEntry, false, false)) && !PlainItem(Item(2, "a ", FileEntry, false, false))
    ensures "a " + ".x" == "a .x"
  {
    assert "a "[1] == ' ';
  }

  /** With different suffixes another row can hide a space: the name is then taken in every directory. */
  lemma OtherSuffixHidesTheSpace(destination: Option<Names>)
    ensures var first, second := Item(1, "a .x", FileEntry, false, false), Item(2, "a ", FileEntry, false, false);
      var suffixOf := (item: Item) => if item.key == 2 then ".x" else "";
      !PlainItem(second) && ErrorFree(Plan([first, second], destination, map[], suffixOf))
  {
    var first, second := Item(1, "a .x", FileEntry, false, false), Item(2, "a ", FileEntry, false, false);
    var suffixOf := (item: Item) => if item.key == 2 then ".x" else "";
    SpacedNames();
    assert VariantsPlain(second) by {
      forall k: nat | k >= 2
        ensures PlainComponent(Variant("a ", FileEntry, k)) && TrimStable(Variant("a ", FileEntry, k))
      {
        SpacedVariants(k);
      }
    }
    hide *;
    TakenByTheFirst(first, second, destination, suffixOf);
  }

  lemma TrailingSpace()
    ensures Trim("a ") == "a" && "a " + "" == "a " && "a" + "" == "a"
  {
    assert "a "[..1] == "a" && TrimEnd("a ") == TrimEnd("a") == "a";
    assert TrimStart("a ") == "a ";
  }

  /** A free suggestion with a space at its end is trimmed onto a taken name. */
  lemma SpacedDefaultClashes()
    ensures var item := Item(1, "a ", FileEntry, false, false);
      Plan([item], Some(Names({"a"}, {})), map[], _ => "")[0].error == Some(AlreadyExists)
  {
    var item := Item(1, "a ", FileEntry, false, false);
    TrailingSpace();
    OneItemPlan(item, Some(Names({"a"}, {})), map[], _ => "");
    hide Plan, FreeVariant, BareNames, Trim;
    assert SuggestedName(item, "", {"a"} + {}) == "a ";
    hide SuggestedName;
  }

  // ---------------------------------------------------------------- one choice for all conflicts

  /** One choice for all rows with a conflict, by item; merging falls back to replacing. */
  function ResolveAllConflicts(rows: seq<Row>, resolution: Resolution): map<nat, Resolution> {
    if rows == [] then map[]
    else
      var front, row := ResolveAllConflicts(rows[..|rows| - 1], resolution), rows[|rows| - 1];
      if row.conflict.None? then front
      else front[row.item.key := if resolution == Merge && !row.conflict.value.canMerge then Override else resolution]
  }

  /** The resolution all conflicting rows share. */
  function SharedResolution(rows: seq<Row>): Option<Resolution> {
    var resolutions := set row | row in rows && row.conflict.Some? :: row.resolution;
    if resolutions == {Rename} then Some(Rename)
    else if resolutions == {Override} then Some(Override)
    else if resolutions == {Merge} then Some(Merge)
    else None
  }

  /** The choices with the given resolutions, names left as they are. */
  function Applied(choices: map<nat, Choice>, resolutions: map<nat, Resolution>): map<nat, Choice> {
    map key | key in choices.Keys + resolutions.Keys ::
      if key in resolutions then ChoiceFor(choices, key).(resolution := Some(resolutions[key])) else ChoiceFor(choices, key)
  }

  /** Whether a row asks, and what it does, depends on its own item and choice alone. */
  lemma {:induction false} RowConflicts(
    items: seq<Item>, destination: Option<Names>, choices: map<nat, Choice>, suffixOf: Item -> string, i: nat)
    requires i < |items|
    ensures var row := Plan(items, destination, choices, suffixOf)[i];
      && row.conflict == FindConflict(items[i], items[i].name + suffixOf(items[i]), Known(destination))
      && row.resolution == Resolve(row.conflict, ChoiceFor(choices, items[i].key))
  {
    if i < |items| - 1 {
      RowConflicts(items[..|items| - 1], destination, choices, suffixOf, i);
    }
  }

  lemma {:induction false} ResolveAllIs(rows: seq<Row>, resolution: Resolution, i: nat)
    requires i < |rows| && forall j, k :: 0 <= j < k < |rows| ==> rows[j].item.key != rows[k].item.key
    ensures rows[i].conflict.Some? ==>
      && rows[i].item.key in ResolveAllConflicts(rows, resolution)
      && ResolveAllConflicts(rows, resolution)[rows[i].item.key]
         == if resolution == Merge && !rows[i].conflict.value.canMerge then Override else resolution
  {
    if i < |rows| - 1 {
      ResolveAllIs(rows[..|rows| - 1], resolution, i);
    }
  }

  /** What one choice for all means for a row. */
  function Applying(row: Row, resolution: Resolution): Resolution {
    if row.conflict.None? then Rename
    else if resolution == Merge && !row.conflict.value.canMerge then Override
    else resolution
  }

  /** Whether all conflicting rows can be merged, or none of them can. */
  predicate ConflictsMerge(rows: seq<Row>, canMerge: bool) {
    forall i :: 0 <= i < |rows| && rows[i].conflict.Some? ==> rows[i].conflict.value.canMerge == canMerge
  }

  /** The shared choice of rows that were all given one resolution. */
  lemma AppliedIsShared(rows: seq<Row>, again: seq<Row>, resolution: Resolution, i: nat)
    requires |again| == |rows| && i < |rows| && rows[i].conflict.Some?
    requires forall j :: 0 <= j < |rows| ==>
      again[j].conflict == rows[j].conflict && again[j].resolution == Applying(rows[j], resolution)
    ensures SharedResolution(again) ==
      if resolution != Merge || ConflictsMerge(rows, true) then Some(resolution)
      else if ConflictsMerge(rows, false) then Some(Override)
      else None
  {
    var resolutions := set row | row in again && row.conflict.Some? :: row.resolution;
    assert again[i] in again && again[i].resolution in resolutions;
    if resolution != Merge || ConflictsMerge(rows, true) {
      assert resolutions == {resolution};
    } else if ConflictsMerge(rows, false) {
      assert resolutions == {Override};
    } else {
      var merged :| 0 <= merged < |rows| && rows[merged].conflict.Some? && rows[merged].conflict.value.canMerge != false;
      var replaced :| 0 <= replaced < |rows| && rows[replaced].conflict.Some? && rows[replaced].conflict.value.canMerge != true;
      assert again[merged] in again && again[replaced] in again;
      assert Merge in resolutions && Override in resolutions;
    }
  }

  /** After one choice for all, planning again finds the same conflicts and gives every one that choice. */
  lemma ResolveAllApplies(
    items: seq<Item>, destination: Option<Names>, choices: map<nat, Choice>, suffixOf: Item -> string, resolution: Resolution)
    requires forall j, k :: 0 <= j < k < |items| ==> items[j].key != items[k].key
    ensures var rows := Plan(items, destination, choices, suffixOf);
      var again := Plan(items, destination, Applied(choices, ResolveAllConflicts(rows, resolution)), suffixOf);
      && (forall i :: 0 <= i < |items| ==>
            again[i].conflict == rows[i].conflict && again[i].resolution == Applying(rows[i], resolution))
      && ((exists i :: 0 <= i < |items| && rows[i].conflict.Some?) ==>
            SharedResolution(again) ==
              if resolution != Merge || ConflictsMerge(rows, true) then Some(resolution)
              else if ConflictsMerge(rows, false) then Some(Override)
              else None)
  {
    var rows := Plan(items, destination, choices, suffixOf);
    var resolutions := ResolveAllConflicts(rows, resolution);
    var again := Plan(items, destination, Applied(choices, resolutions), suffixOf);
    PlanKeepsItems(items, destination, choices, suffixOf);
    hide Plan, ResolveAllConflicts, FindConflict;
    forall i | 0 <= i < |items|
      ensures again[i].conflict == rows[i].conflict && again[i].resolution == Applying(rows[i], resolution)
    {
      RowConflicts(items, destination, choices, suffixOf, i);
      RowConflicts(items, destination, Applied(choices, resolutions), suffixOf, i);
      ResolveAllIs(rows, resolution, i);
    }
    if exists i :: 0 <= i < |items| && rows[i].conflict.Some? {
      var i :| 0 <= i < |items| && rows[i].conflict.Some?;
      AppliedIsShared(rows, again, resolution, i);
    }
  }
}
