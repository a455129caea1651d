/**
 * Runs of the arena built from the contracts alone: a batch of three that
 * settles, and a completion that arrives after its batch was superseded.
 * The catalog entries and the prompt are parameters.
 */
module Scenarios {
  import opened Wrappers
  import opened JsText
  import opened Caller
  import opened Ranking
  import opened Selection
  import opened Dispatch

  /** Selecting some entries of a catalog of distinct ids runs exactly them. */
  lemma RunsSelected(catalog: seq<Descriptor>, sel: seq<string>, ids: set<string>)
    requires forall x :: x in sel <==> x in ids
    requires forall x | x in ids :: exists d | d in catalog :: d.id == x
    ensures Ids(ModelsToRun(catalog, sel)) == ids
  {
    ModelsToRunMembers(catalog, sel);
  }

  /** The outcomes stored in the order a, c, b: the 50 one wins. */
  lemma SampleWinner(oa: Outcome, oc: Outcome, ob: Outcome)
    requires oa.Success? && oa.text == "pong" && oa.elapsed == 50
    requires oc.Failure?
    requires ob.Success? && ob.text == "pong2" && ob.elapsed == 200
    ensures forall k | FastestAt([oa, oc, ob], k) :: k == 0
    ensures FastestAt([oa, oc, ob], 0)
  {
    forall k | FastestAt([oa, oc, ob], k) ensures k == 0 {
      assert Eligible([oa, oc, ob][0]);
    }
  }

  lemma RemoveThree(pending: set<string>, a: string, b: string, c: string)
    requires pending == {a, b, c}
    ensures pending - {a} - {c} - {b} == {}
  {
  }

  /** One completion of the current batch for an id not yet stored. */
  method CompleteOne(arena: Arena, token: nat, id: string, o: Outcome)
    requires arena.Valid() && !arena.aborted && arena.generation == token
    requires 0 < token == |arena.runs| && id in arena.runs[token - 1] && id !in arena.results
    modifies arena
    ensures arena.Valid() && !arena.aborted && arena.generation == token && arena.runs == old(arena.runs)
    ensures arena.results == old(arena.results)[id := o]
    ensures arena.order == old(arena.order) + [id]
    ensures arena.loading == old(arena.loading) - {id}
  {
    arena.IngestCurrent(token, id, o);
  }

  /** The three completions of a fresh batch arriving in the order a, c, b. */
  method CompleteInOrder(arena: Arena, token: nat, oa: Outcome, oc: Outcome, ob: Outcome)
    requires arena.Valid() && !arena.aborted && arena.generation == token
    requires arena.order == [] && arena.results == map[]
    requires oa.model.id != ob.model.id && ob.model.id != oc.model.id && oa.model.id != oc.model.id
    requires arena.loading == {oa.model.id, ob.model.id, oc.model.id}
    requires 0 < token == |arena.runs| && arena.runs[token - 1] == {oa.model.id, ob.model.id, oc.model.id}
    modifies arena
    ensures arena.Valid() && arena.loading == {}
    ensures arena.order == [oa.model.id, oc.model.id, ob.model.id]
    ensures arena.results == map[oa.model.id := oa][oc.model.id := oc][ob.model.id := ob]
  {
    var a, b, c := oa.model.id, ob.model.id, oc.model.id;
    ghost var pending := arena.loading;
    CompleteOne(arena, token, a, oa);
    CompleteOne(arena, token, c, oc);
    CompleteOne(arena, token, b, ob);
    RemoveThree(pending, a, b, c);
  }

  /** The outcomes stored under a, c, b in that order, read back by `Object.values`. */
  lemma ValuesOfThree(order: seq<string>, results: map<string, Outcome>, oa: Outcome, oc: Outcome, ob: Outcome)
    requires oa.model.id != ob.model.id && ob.model.id != oc.model.id && oa.model.id != oc.model.id
    requires order == [oa.model.id, oc.model.id, ob.model.id]
    requires results == map[oa.model.id := oa][oc.model.id := oc][ob.model.id := ob]
    ensures |results| == 3
    ensures Values(order, results) == [oa, oc, ob]
  {
    assert results.Keys == {oa.model.id, oc.model.id, ob.model.id};
    var vals := Values(order, results);
    assert vals[0] == oa && vals[1] == oc && vals[2] == ob;
  }

  /** The settled batch's banner names the 50 one. */
  lemma BannerNamesFastest(arena: Arena, oa: Outcome, oc: Outcome, ob: Outcome)
    requires arena.Consistent() && arena.loading == {} && |arena.results| == 3
    requires oa.Success? && oa.text == "pong" && oa.elapsed == 50
    requires oc.Failure?
    requires ob.Success? && ob.text == "pong2" && ob.elapsed == 200
    requires arena.order == [oa.model.id, oc.model.id, ob.model.id]
    requires Values(arena.order, arena.results) == [oa, oc, ob]
    ensures arena.Winner() == Some(oa)
  {
    SampleWinner(oa, oc, ob);
    assert Eligible(arena.results[arena.order[0]]);
  }

  /** An ok response, `elapsed` after the start, whose only content segment
      carries `text`. */
  function Reply(elapsed: nat, text: string): Exchange {
    Responded(200, elapsed, "", Parsed(Body(Some([Segment(Some(text))]), None, None, "{}")))
  }

  /** The three exchanges of the settled batch, normalised: two replies and a
      connection failure. */
  lemma SampleReplies(a: Descriptor, b: Descriptor, c: Descriptor)
    ensures Normalize(a, Reply(50, "pong")) == Success(a, "pong", 50, Usage(None, None), None)
    ensures Normalize(b, Reply(200, "pong2")) == Success(b, "pong2", 200, Usage(None, None), None)
    ensures Normalize(c, Rejected("Failed to fetch", 80)) == Failure(c, "Failed to fetch", 80)
  {
    assert JoinTexts([Segment(Some("pong"))]) == "pong" + JoinTexts([]);
    assert JoinTexts([Segment(Some("pong2"))]) == "pong2" + JoinTexts([]);
  }

  /** A fresh batch over three entries, each selected. */
  method StartThree(arena: Arena, a: Descriptor, b: Descriptor, c: Descriptor, prompt: string)
    returns (token: nat)
    requires arena.Valid() && arena.selected == [a.id, b.id, c.id]
    requires a.id != b.id && b.id != c.id && a.id != c.id
    requires !Blank(prompt)
    modifies arena
    ensures arena.Valid() && !arena.aborted && arena.generation == token
    ensures arena.order == [] && arena.results == map[]
    ensures arena.loading == {a.id, b.id, c.id}
    ensures 0 < token == |arena.runs| && arena.runs[token - 1] == {a.id, b.id, c.id}
  {
    RunsSelected([a, b, c], [a.id, b.id, c.id], {a.id, b.id, c.id});
    var _, _, t := arena.StartBatch([a, b, c], prompt);
    token := t;
  }

  /** Three backends: one replies "pong" after 50, one "pong2" after 200,
      and one fails to connect, each exchange normalised as a call does.
      Once all three are in, nothing is pending, three outcomes are stored,
      and the 50 one is named fastest. */
  method SettledBatch(a: Descriptor, b: Descriptor, c: Descriptor, prompt: string)
    returns (winner: Option<Outcome>, pending: set<string>, stored: nat)
    requires a.id != b.id && b.id != c.id && a.id != c.id
    requires !Blank(prompt)
    ensures pending == {} && stored == 3
    ensures winner.Some? && winner.value.model == a && winner.value.elapsed == 50
  {
    var arena := new Arena([a.id, b.id, c.id]);
    var token := StartThree(arena, a, b, c, prompt);
    var oa := Normalize(a, Reply(50, "pong"));
    var ob := Normalize(b, Reply(200, "pong2"));
    var oc := Normalize(c, Rejected("Failed to fetch", 80));
    SampleReplies(a, b, c);
    CompleteInOrder(arena, token, oa, oc, ob);
    ValuesOfThree(arena.order, arena.results, oa, oc, ob);
    BannerNamesFastest(arena, oa, oc, ob);
    pending := arena.loading;
    stored := |arena.results|;
    winner := arena.Winner();
  }

  /** Switching the selection from one id to another. */
  lemma SwitchSelection(x: string, y: string)
    requires x != y
    ensures Toggle(Toggle([x], x), y) == [y]
  {
    assert Remove([x], x) == [];
  }

  /** The as-written completion step: a is run, the selection is switched
      to b, and the batch is started again while a is still pending (the
      prompt's Ctrl+Enter is not disabled while loading). When the first
      batch's answer for a arrives it is stored into the second batch, which
      ran only b: the stored and pending ids no longer make up the batch. */
  method StaleCompletionStored(a: Descriptor, b: Descriptor, prompt: string, late: Outcome)
    returns (stored: set<string>, pending: set<string>, ran: set<string>)
    requires a.id != b.id && !Blank(prompt)
    ensures ran == {b.id} && a.id in stored
    ensures stored + pending != ran
  {
    var arena := new Arena([a.id]);
    var _, _, _ := arena.StartBatch([a, b], prompt);
    arena.ToggleModel(a.id);
    arena.ToggleModel(b.id);
    SwitchSelection(a.id, b.id);
    RunsSelected([a, b], [b.id], {b.id});
    var _, run2, _ := arena.StartBatch([a, b], prompt);
    arena.Ingest(a.id, late);
    stored := arena.results.Keys;
    pending := arena.loading;
    ran := Ids(run2);
  }

  /** The same run with the generation-checked completion step: the first
      batch's answer is dropped and the second batch is untouched. */
  method StaleCompletionDropped(a: Descriptor, b: Descriptor, prompt: string, late: Outcome)
    returns (stored: set<string>, pending: set<string>, ran: set<string>)
    requires a.id != b.id && !Blank(prompt)
    ensures ran == {b.id} && stored == {} && pending == {b.id}
  {
    var arena := new Arena([a.id]);
    RunsSelected([a, b], [a.id], {a.id});
    var _, _, token1 := arena.StartBatch([a, b], prompt);
    arena.ToggleModel(a.id);
    arena.ToggleModel(b.id);
    SwitchSelection(a.id, b.id);
    RunsSelected([a, b], [b.id], {b.id});
    var _, run2, token2 := arena.StartBatch([a, b], prompt);
    assert token1 != token2;
    arena.IngestCurrent(token1, a.id, late);
    stored := arena.results.Keys;
    pending := arena.loading;
    ran := Ids(run2);
  }
}
