/**
 * The selection of backends and the lists derived from it: `toggleModel`,
 * the catalog filter that decides which backends a batch runs, the catalog
 * lookup `MODELS.find`, and `resultsList`, one card per selected id.
 */
module Selection {
  import opened Wrappers
  import opened Caller

  /** The selection with every occurrence of `id` taken out. */
  function Remove(sel: seq<string>, id: string): (r: seq<string>)
    ensures |r| <= |sel|
    ensures forall x :: x in r <==> x in sel && x != id
  {
    if sel == [] then []
    else if sel[0] == id then Remove(sel[1..], id)
    else [sel[0]] + Remove(sel[1..], id)
  }

  /** Toggling: a selected id is taken out, an unselected one appended. */
  function Toggle(sel: seq<string>, id: string): seq<string> {
    if id in sel then Remove(sel, id) else sel + [id]
  }

  lemma {:induction false} RemoveAbsent(sel: seq<string>, id: string)
    requires id !in sel
    ensures Remove(sel, id) == sel
  {
    if sel != [] {
      RemoveAbsent(sel[1..], id);
      assert sel == [sel[0]] + sel[1..];
    }
  }

  lemma {:induction false} RemoveAppend(a: seq<string>, b: seq<string>, id: string)
    ensures Remove(a + b, id) == Remove(a, id) + Remove(b, id)
  {
    if a == [] {
      assert a + b == b;
    } else {
      assert (a + b)[1..] == a[1..] + b;
      RemoveAppend(a[1..], b, id);
    }
  }

  /** Toggling flips whether `id` is selected and leaves every other id's
      membership alone. */
  lemma ToggleFlips(sel: seq<string>, id: string)
    ensures id in Toggle(sel, id) <==> id !in sel
    ensures forall x | x != id :: x in Toggle(sel, id) <==> x in sel
  {
  }

  /** Toggling keeps the other ids in their relative order: with `id` taken
      out, the selection is the same before and after. */
  lemma ToggleKeepsOthers(sel: seq<string>, id: string)
    ensures Remove(Toggle(sel, id), id) == Remove(sel, id)
  {
    if id in sel {
      RemoveAbsent(Remove(sel, id), id);
    } else {
      RemoveAppend(sel, [id], id);
      assert Remove([id], id) == [];
    }
  }

  /** An absent id is appended at the end, and toggling it again restores
      the selection. */
  lemma ToggleAbsentRoundTrip(sel: seq<string>, id: string)
    requires id !in sel
    ensures Toggle(sel, id) == sel + [id]
    ensures Toggle(Toggle(sel, id), id) == sel
  {
    RemoveAppend(sel, [id], id);
    RemoveAbsent(sel, id);
    assert Remove([id], id) == [];
  }

  /** The catalog entries that are selected, in catalog order. */
  function ModelsToRun(catalog: seq<Descriptor>, sel: seq<string>): seq<Descriptor> {
    if catalog == [] then []
    else if catalog[0].id in sel then [catalog[0]] + ModelsToRun(catalog[1..], sel)
    else ModelsToRun(catalog[1..], sel)
  }

  /** The filter keeps exactly the catalog entries whose id is selected. */
  lemma {:induction false} ModelsToRunMembers(catalog: seq<Descriptor>, sel: seq<string>)
    ensures forall d :: d in ModelsToRun(catalog, sel) <==> d in catalog && d.id in sel
  {
    if catalog != [] {
      ModelsToRunMembers(catalog[1..], sel);
      assert forall d :: d in catalog <==> d == catalog[0] || d in catalog[1..];
    }
  }

  /** The filter keeps catalog order: filtering a catalog in two parts gives
      the two filtered parts one after the other. */
  lemma {:induction false} ModelsToRunAppend(a: seq<Descriptor>, b: seq<Descriptor>, sel: seq<string>)
    ensures ModelsToRun(a + b, sel) == ModelsToRun(a, sel) + ModelsToRun(b, sel)
  {
    if a == [] {
      assert a + b == b;
    } else {
      assert (a + b)[1..] == a[1..] + b;
      ModelsToRunAppend(a[1..], b, sel);
    }
  }

  /** The ids of a list of entries. */
  function Ids(ds: seq<Descriptor>): set<string> {
    set d | d in ds :: d.id
  }

  /** The catalog lookup: the first entry with that id. */
  function Find(catalog: seq<Descriptor>, id: string): (r: Option<Descriptor>)
    ensures r.None? <==> forall d | d in catalog :: d.id != id
    ensures r.Some? ==> r.value in catalog && r.value.id == id
  {
    if catalog == [] then None
    else if catalog[0].id == id then Some(catalog[0])
    else
      assert forall d | d in catalog[1..] :: d in catalog;
      assert forall d | d in catalog :: d == catalog[0] || d in catalog[1..];
      Find(catalog[1..], id)
  }

  /** Of several entries with the same id, the first one is found. */
  lemma {:induction false} FindFirst(catalog: seq<Descriptor>, id: string, k: nat)
    requires k < |catalog| && catalog[k].id == id
    requires forall j | 0 <= j < k :: catalog[j].id != id
    ensures Find(catalog, id) == Some(catalog[k])
  {
    if k > 0 {
      FindFirst(catalog[1..], id, k - 1);
    }
  }

  /** One card of the results grid: the descriptor it shows (if any) and the
      outcome stored for its id (if any). */
  datatype Card = Card(model: Option<Descriptor>, outcome: Option<Outcome>)

  /** The card for one id: the catalog entry found for it, overlaid by the
      stored outcome if there is one, whose own `model` field then replaces
      the found entry. */
  function CardFor(catalog: seq<Descriptor>, results: map<string, Outcome>, id: string): Card {
    if id in results then Card(Some(results[id].model), Some(results[id]))
    else Card(Find(catalog, id), None)
  }

  /** `resultsList`: one card per selected id, in selection order; a card has
      an outcome exactly when its id has one stored, and shows the catalog
      entry for its id while it has none. */
  function ResultsList(catalog: seq<Descriptor>, sel: seq<string>, results: map<string, Outcome>)
    : (cards: seq<Card>)
    ensures |cards| == |sel|
    ensures forall i | 0 <= i < |sel| ::
      && (cards[i].outcome.Some? <==> sel[i] in results)
      && (sel[i] in results ==> cards[i].outcome.value == results[sel[i]]
                                && cards[i].model == Some(results[sel[i]].model))
      && (sel[i] !in results ==> cards[i].model == Find(catalog, sel[i]))
  {
    seq(|sel|, i requires 0 <= i < |sel| => CardFor(catalog, results, sel[i]))
  }
}
