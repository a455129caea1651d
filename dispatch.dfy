/**
 * The arena's shared state and the transitions `runArena` makes on it.
 *
 * `results` is the result object, with `order` recording the order its keys
 * were first inserted (the order `Object.values` yields them in, for ids
 * that are not array indices); `loading` is the set of ids still pending;
 * `aborted` is `abortRef.current`.
 * Completions arrive by calling `Ingest` in any order, which stands for the
 * tasks finishing out of order.
 */
module Dispatch {
  import opened Wrappers
  import opened JsText
  import opened Caller
  import opened Ranking
  import opened Selection

  class Arena {
    var selected: seq<string>
    var results: map<string, Outcome>
    var order: seq<string>
    var loading: set<string>
    var aborted: bool
    /** The number of batches started; each task carries the value it was
        started under, so a completion can tell whether its batch is current. */
    var generation: nat
    /** The ids the current batch runs. */
    ghost var batch: set<string>
    /** The ids each batch started so far was run for, oldest first. */
    ghost var runs: seq<set<string>>

    /** `results` and `order` describe the same keys, each once. */
    ghost predicate Consistent()
      reads this`results, this`order
    {
      InsertionOrder(order, results)
    }

    /** Each id of the batch is either pending or has its outcome, never both,
        and nothing else is either. */
    ghost predicate Accounted()
      reads this`results, this`loading, this`batch
    {
      loading !! results.Keys && loading + results.Keys == batch
    }

    /** One run is recorded per batch started, the last one being the
        current batch. */
    ghost predicate Valid()
      reads this`results, this`order, this`loading, this`batch, this`generation, this`runs
    {
      && Consistent()
      && Accounted()
      && |runs| == generation
      && batch == (if generation == 0 then {} else runs[generation - 1])
    }

    /** The initial state, with the initial selection as a parameter. */
    constructor (initial: seq<string>)
      ensures Valid()
      ensures selected == initial && results == map[] && order == [] && loading == {}
      ensures !aborted && generation == 0 && batch == {} && runs == []
    {
      selected := initial;
      results := map[];
      order := [];
      loading := {};
      aborted := false;
      generation := 0;
      batch := {};
      runs := [];
    }

    /** Toggling one id in the selection. */
    method ToggleModel(id: string)
      modifies this`selected
      ensures selected == Toggle(old(selected), id)
    {
      selected := Toggle(selected, id);
    }

    /** `runArena` up to the launch of the tasks: nothing happens when the
        trimmed prompt is empty or nothing is selected; otherwise the results
        are cleared and every selected catalog entry becomes pending. It
        returns the entries to call, in catalog order, and the batch's token. */
    method StartBatch(catalog: seq<Descriptor>, prompt: string)
      returns (started: bool, toRun: seq<Descriptor>, token: nat)
      requires Valid()
      modifies this`results, this`order, this`loading, this`aborted, this`generation,
               this`batch, this`runs
      ensures Valid()
      ensures started <==> !Blank(prompt) && |selected| > 0
      ensures !started ==> toRun == [] && unchanged(this)
      ensures started ==>
        && toRun == ModelsToRun(catalog, selected)
        && results == map[] && order == []
        && loading == Ids(toRun) && batch == loading
        && !aborted && generation == old(generation) + 1 && token == generation
        && runs == old(runs) + [batch]
    {
      TrimEmptyIffBlank(prompt);
      if Trim(prompt) == "" || |selected| == 0 {
        return false, [], generation;
      }
      started := true;
      aborted := false;
      generation := generation + 1;
      token := generation;
      results := map[];
      order := [];
      toRun := ModelsToRun(catalog, selected);
      loading := Ids(toRun);
      batch := loading;
      runs := runs + [batch];
    }

    /** The stored write of one completion: the outcome under its id (a new
        key goes last in insertion order, an existing key keeps its place)
        and the id no longer pending. */
    method Store(id: string, outcome: Outcome)
      requires Consistent()
      modifies this`results, this`order, this`loading
      ensures Consistent()
      ensures results == old(results)[id := outcome]
      ensures order == if id in old(results) then old(order) else old(order) + [id]
      ensures loading == old(loading) - {id}
    {
      if id !in results {
        order := order + [id];
      }
      results := results[id := outcome];
      loading := loading - {id};
    }

    /** The completion step as written: it stores unless `abortRef.current`
        is set, which nothing ever does, so a completion from an earlier
        batch is stored too. The batch stays accounted for when the id
        belongs to it, and stops being accounted for when it does not. */
    method Ingest(id: string, outcome: Outcome)
      requires Consistent()
      modifies this`results, this`order, this`loading
      ensures Consistent()
      ensures old(aborted) ==> unchanged(this)
      ensures !old(aborted) ==>
        && results == old(results)[id := outcome]
        && order == (if id in old(results) then old(order) else old(order) + [id])
        && loading == old(loading) - {id}
      ensures old(Valid()) && id in batch ==> Valid()
      ensures old(Valid()) && !old(aborted) && id !in batch ==> !Accounted()
    {
      if !aborted {
        Store(id, outcome);
      }
    }

    /** The completion step with the guard `abortRef` is named for made
        effective: a task's completion is stored only while the batch it was
        started under is the current one, so every completion keeps the
        state valid. */
    method IngestCurrent(token: nat, id: string, outcome: Outcome)
      requires Valid()
      requires 0 < token <= |runs| && id in runs[token - 1]
      modifies this`results, this`order, this`loading
      ensures Valid()
      ensures !aborted && token == generation ==>
        && results == old(results)[id := outcome]
        && order == (if id in old(results) then old(order) else old(order) + [id])
        && loading == old(loading) - {id}
      ensures aborted || token != generation ==> unchanged(this)
    {
      if !aborted && token == generation {
        Store(id, outcome);
      }
    }

    /** The batch has settled: nothing is pending. */
    predicate Settled()
      reads this`loading
    {
      |loading| == 0
    }

    /** The winner banner: shown only once nothing is pending and more than
        one result is stored, and then it names the earliest-inserted of the
        fastest eligible outcomes; with at least one eligible outcome the
        banner does show. */
    function Winner(): (w: Option<Outcome>)
      reads this`results, this`order, this`loading
      requires Consistent()
      ensures w.Some? ==> Settled() && |results| > 1
      ensures w.Some? ==> exists k :: FastestAt(Values(order, results), k)
                                      && w.value == results[order[k]]
      ensures Settled() && |results| > 1 && (exists k | k in results :: Eligible(results[k]))
              ==> w.Some?
    {
      var vals := Values(order, results);
      FastestSpec(vals);
      assert forall k | k in results :: exists i | 0 <= i < |order| :: order[i] == k;
      var f := Fastest(vals);
      if f.Some? && |loading| == 0 && |results| > 1 then f else None
    }
  }
}
