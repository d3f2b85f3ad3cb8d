/** The group list page (app/page.tsx): the search filter, replacing the
    saved group in the list, the total-driver badge and the three-driver
    preview on each card. */
module Page {
  import opened Types
  import opened JsBuiltins
  import EditDialog

  /** `typeof d === 'string' ? d : d.name` */
  function DisplayName(d: DriverEntry): string {
    match d
    case Plain(s) => s
    case Named(n) => n
  }

  /** `drivers.map(d => display name)` */
  function DisplayNames(ds: seq<DriverEntry>): (r: seq<string>)
    ensures |r| == |ds|
    ensures forall i :: 0 <= i < |ds| ==> r[i] == DisplayName(ds[i])
  {
    if ds == [] then [] else [DisplayName(ds[0])] + DisplayNames(ds[1..])
  }

  // ---------------------------------------------------------------------
  // Search

  /** The filter callback of `filteredDrivers`: the lower-cased search text
      is included in the lower-cased group name, in some driver's lower-cased
      display name, or in the lower-cased notes. */
  predicate Matches(g: DriverGroup, search: string) {
    var needle := ToLower(search);
    || Includes(ToLower(g.groupName), needle)
    || (g.drivers.Some? && exists i :: 0 <= i < |g.drivers.value| && Includes(ToLower(DisplayName(g.drivers.value[i])), needle))
    || (g.notes.Some? && Includes(ToLower(g.notes.value), needle))
  }

  /** The same condition stated with substring positions instead of `includes`. */
  ghost predicate OccursIn(text: string, search: string) {
    exists j :: OccursAt(ToLower(text), ToLower(search), j)
  }

  ghost predicate MatchesBySubstring(g: DriverGroup, search: string) {
    || OccursIn(g.groupName, search)
    || (g.drivers.Some? && exists i :: 0 <= i < |g.drivers.value| && OccursIn(DisplayName(g.drivers.value[i]), search))
    || (g.notes.Some? && OccursIn(g.notes.value, search))
  }

  /** A group is kept exactly when the search text is a substring of one of
      the three lower-cased texts. */
  lemma MatchesIff(g: DriverGroup, search: string)
    ensures Matches(g, search) <==> MatchesBySubstring(g, search)
  {
    var needle := ToLower(search);
    IncludesIff(ToLower(g.groupName), needle);
    if g.notes.Some? {
      IncludesIff(ToLower(g.notes.value), needle);
    }
    if g.drivers.Some? {
      forall i | 0 <= i < |g.drivers.value|
        ensures Includes(ToLower(DisplayName(g.drivers.value[i])), needle)
                <==> OccursIn(DisplayName(g.drivers.value[i]), search)
      {
        IncludesIff(ToLower(DisplayName(g.drivers.value[i])), needle);
      }
    }
  }

  /** `drivers.filter(Matches)` */
  function FilterGroups(gs: seq<DriverGroup>, search: string): (r: seq<DriverGroup>)
    ensures |r| <= |gs|
    ensures forall g :: g in r <==> g in gs && Matches(g, search)
  {
    Filter(gs, g => Matches(g, search))
  }

  /** The filtered list is an order-preserving selection of the full list:
      entry i of the result is the group at the i-th kept position, the kept
      positions increase, and every matching group's position is kept. */
  lemma FilteredIsOrderedSelection(gs: seq<DriverGroup>, search: string)
    ensures var r, p := FilterGroups(gs, search), KeptPositions(gs, g => Matches(g, search));
      && |p| == |r|
      && (forall i :: 0 <= i < |p| ==> p[i] < |gs| && r[i] == gs[p[i]] && Matches(gs[p[i]], search))
      && (forall i, j :: 0 <= i < j < |p| ==> p[i] < p[j])
      && (forall k :: 0 <= k < |gs| && Matches(gs[k], search) ==> k in p)
  {
    FilterIsOrderedSelection(gs, g => Matches(g, search));
  }

  /** An empty search keeps every group. */
  lemma EmptySearchKeepsAll(gs: seq<DriverGroup>)
    ensures FilterGroups(gs, "") == gs
  {
    forall i | 0 <= i < |gs|
      ensures Matches(gs[i], "")
    {
      IncludesEmpty(ToLower(gs[i].groupName));
    }
    FilterKeepsAll(gs, g => Matches(g, ""));
  }

  // ---------------------------------------------------------------------
  // Saving

  /** handleSave: `prev.map(g => g._id === updated._id ? updated : g)`. */
  function ReplaceById(gs: seq<DriverGroup>, updated: DriverGroup): (r: seq<DriverGroup>)
    ensures |r| == |gs|
    ensures forall i :: 0 <= i < |gs| ==> r[i] == (if gs[i].id == updated.id then updated else gs[i])
  {
    if gs == [] then []
    else [if gs[0].id == updated.id then updated else gs[0]] + ReplaceById(gs[1..], updated)
  }

  /** Saving the same group twice is saving it once. */
  lemma ReplaceByIdIdempotent(gs: seq<DriverGroup>, updated: DriverGroup)
    ensures ReplaceById(ReplaceById(gs, updated), updated) == ReplaceById(gs, updated)
  {
  }

  /** Saving a group whose `_id` is not in the list changes nothing. */
  lemma ReplaceAbsentId(gs: seq<DriverGroup>, updated: DriverGroup)
    requires forall i :: 0 <= i < |gs| ==> gs[i].id != updated.id
    ensures ReplaceById(gs, updated) == gs
  {
  }

  /** Editing a group in the dialog and saving it puts the edited group in
      its place: the dialog never changes `_id`. With unique ids the list
      differs from the old one at that position only. */
  lemma EditThenSave(gs: seq<DriverGroup>, k: nat, v: EditDialog.FieldValue)
    requires k < |gs|
    requires forall j :: 0 <= j < |gs| && j != k ==> gs[j].id != gs[k].id
    ensures ReplaceById(gs, EditDialog.UpdateField(gs[k], v)) == gs[k := EditDialog.UpdateField(gs[k], v)]
  {
  }

  // ---------------------------------------------------------------------
  // Badges and previews

  /** `g.drivers?.length || 0` */
  function DriverCount(g: DriverGroup): nat {
    if g.drivers.Some? then |g.drivers.value| else 0
  }

  /** `drivers.reduce((acc, g) => acc + (g.drivers?.length || 0), 0)`, a
      left fold. */
  function TotalDrivers(gs: seq<DriverGroup>): nat {
    if gs == [] then 0 else TotalDrivers(gs[..|gs| - 1]) + DriverCount(gs[|gs| - 1])
  }

  /** The total of a concatenation is the sum of the totals. */
  lemma {:induction false} TotalDriversAppend(a: seq<DriverGroup>, b: seq<DriverGroup>)
    ensures TotalDrivers(a + b) == TotalDrivers(a) + TotalDrivers(b)
    decreases |b|
  {
    if b == [] {
      assert a + b == a;
    } else {
      var b' := b[..|b| - 1];
      assert (a + b)[..|a + b| - 1] == a + b';
      assert (a + b)[|a + b| - 1] == b[|b| - 1];
      TotalDriversAppend(a, b');
    }
  }

  lemma TotalDriversCons(g: DriverGroup, gs: seq<DriverGroup>)
    ensures TotalDrivers([g] + gs) == DriverCount(g) + TotalDrivers(gs)
  {
    TotalDriversAppend([g], gs);
    assert [g][..0] == [];
  }

  /** Replacing the one group with a given `_id` changes the total by the
      difference of the two driver counts. */
  lemma ReplaceUniqueTotal(gs: seq<DriverGroup>, k: nat, updated: DriverGroup)
    requires k < |gs| && gs[k].id == updated.id
    requires forall j :: 0 <= j < |gs| && j != k ==> gs[j].id != updated.id
    ensures TotalDrivers(ReplaceById(gs, updated)) + DriverCount(gs[k]) == TotalDrivers(gs) + DriverCount(updated)
  {
    var before, after := gs[..k], gs[k + 1..];
    assert gs == before + [gs[k]] + after;
    assert ReplaceById(gs, updated) == before + [updated] + after;
    TotalDriversAppend(before + [gs[k]], after);
    TotalDriversAppend(before, [gs[k]]);
    TotalDriversAppend(before + [updated], after);
    TotalDriversAppend(before, [updated]);
    assert [gs[k]][..0] == [] && [updated][..0] == [];
  }

  /** Adding a driver in the dialog and saving raises the total badge by one. */
  lemma AddDriverThenSave(gs: seq<DriverGroup>, k: nat)
    requires k < |gs|
    requires forall j :: 0 <= j < |gs| && j != k ==> gs[j].id != gs[k].id
    ensures TotalDrivers(ReplaceById(gs, EditDialog.AddDriver(gs[k]))) == TotalDrivers(gs) + 1
  {
    ReplaceUniqueTotal(gs, k, EditDialog.AddDriver(gs[k]));
  }

  /** What a card shows of its drivers: up to three names, and the "+n"
      overflow tag when there are more. */
  datatype Preview = Preview(shown: seq<string>, more: Option<nat>)

  /** `drivers?.slice(0, 3)` and `drivers && drivers.length > 3 && +(length - 3)`. */
  function PreviewOf(drivers: Option<seq<DriverEntry>>): (p: Preview)
    ensures drivers.None? ==> p == Preview([], None)
    ensures drivers.Some? ==> |p.shown| == (if |drivers.value| < 3 then |drivers.value| else 3)
    ensures drivers.Some? ==> p.shown == DisplayNames(drivers.value)[..|p.shown|]
    ensures p.more.Some? <==> drivers.Some? && |drivers.value| > 3
    ensures p.more.Some? ==> p.more.value == |drivers.value| - 3 && |p.shown| + p.more.value == |drivers.value|
  {
    match drivers
    case None => Preview([], None)
    case Some(ds) =>
      var end := if |ds| < 3 then |ds| else 3;
      Preview(DisplayNames(ds[..end]), if |ds| > 3 then Some(|ds| - 3) else None)
  }
}
