/** The election handlers' logic over the store: the option cap on
    creation, the display of a voter's own vote, and the per-option results
    tally. HTTP, JSON and the bearer token are left to the caller: the
    caller's identity arrives as `Some(id)`, or `None` when the token could
    not be read, and a response is a status with its body. */
module Votation {
  import opened Wrappers
  import opened Bincode
  import opened Blocks
  import opened Ledger

  /** The most options an election may be created with. */
  const MAX_VOTE_OPTIONS: nat := 20

  /** The status of a response and its JSON body. */
  datatype Response<T> = Ok(body: T) | BadRequest(message: string) | NotFound(message: string) | Unauthorized

  const TOO_MANY_OPTIONS := "Cannot create more than 20 vote options"
  const ELECTION_CREATED := "Election created successfully"
  const VOTE_ADDED := "Vote added successfully"
  const ELECTION_NOT_FOUND := "Election not found"
  const MISSING_ELECTION_ID := "Missing election_id query parameter"

  /** One election as the listing handlers show it: its id, its options and
      the caller's vote. `None` is a `user_vote` of `null`, except in the
      created-elections listing, which has no `user_vote` key at all. */
  datatype ElectionView = ElectionView(electionId: string, voteOptions: set<string>, userVote: Option<string>)

  predicate OptionsWithinCap(elections: map<string, set<string>>) {
    forall e :: e in elections ==> |elections[e]| <= MAX_VOTE_OPTIONS
  }

  // ---------------------------------------------------------------------
  // Creating an election and voting.
  // ---------------------------------------------------------------------

  /** `handle_post_create_election`: authentication, then the option cap,
      then the store. */
  method HandlePostCreateElection(store: Blockchain, caller: Option<string>,
                                  electionId: string, voteOptions: set<string>)
    returns (resp: Response<string>)
    requires store.Valid()
    modifies store
    ensures store.Valid()
    ensures caller.None? ==> resp == Unauthorized
    ensures caller.Some? && |voteOptions| > MAX_VOTE_OPTIONS ==> resp == BadRequest(TOO_MANY_OPTIONS)
    ensures (caller.None? || |voteOptions| > MAX_VOTE_OPTIONS) ==>
      store.chain == old(store.chain) && store.voters == old(store.voters)
      && store.elections == old(store.elections) && store.creators == old(store.creators)
    ensures caller.Some? && |voteOptions| <= MAX_VOTE_OPTIONS ==>
      && store.chain == old(store.chain) && store.voters == old(store.voters)
      && (electionId in old(store.elections) ==>
            resp == BadRequest(ElectionAlreadyExists.Message())
            && store.elections == old(store.elections) && store.creators == old(store.creators))
      && (electionId !in old(store.elections) ==>
            resp == Ok(ELECTION_CREATED)
            && store.elections == old(store.elections)[electionId := voteOptions]
            && store.creators == old(store.creators)[caller.value := CreatedBy(old(store.creators), caller.value) + {electionId}])
    ensures OptionsWithinCap(old(store.elections)) ==> OptionsWithinCap(store.elections)
  {
    if caller.None? {
      return Unauthorized;
    }
    if |voteOptions| > MAX_VOTE_OPTIONS {
      return BadRequest(TOO_MANY_OPTIONS);
    }
    var r := store.CreateElection(electionId, voteOptions, caller.value);
    match r
    case Done => resp := Ok(ELECTION_CREATED);
    case Failed(err) => resp := BadRequest(err.Message());
  }

  /** `handle_post_vote`: authentication, then the store. */
  method HandlePostVote(store: Blockchain, caller: Option<string>, electionId: string,
                        voteOptionId: string, timestamp: u128)
    returns (resp: Response<string>)
    requires store.Valid()
    requires |store.chain| < U64_LIMIT
    modifies store
    ensures store.Valid()
    ensures store.elections == old(store.elections) && store.creators == old(store.creators)
    ensures caller.None? ==> resp == Unauthorized
    ensures caller.Some? && electionId !in old(store.elections) ==>
      resp == BadRequest(ElectionNotFound.Message())
    ensures caller.Some? && electionId in old(store.elections) && voteOptionId !in old(store.elections)[electionId] ==>
      resp == BadRequest(InvalidOption.Message())
    ensures caller.Some? && electionId in old(store.elections) && voteOptionId in old(store.elections)[electionId]
            && caller.value in VotersOf(old(store.voters), electionId) ==>
      resp == BadRequest(AlreadyVoted.Message())
    ensures caller.Some? && electionId in old(store.elections) && voteOptionId in old(store.elections)[electionId]
            && caller.value !in VotersOf(old(store.voters), electionId) ==>
      resp == Ok(VOTE_ADDED)
    ensures !resp.Ok? ==> store.chain == old(store.chain) && store.voters == old(store.voters)
    ensures resp.Ok? ==>
      && caller.Some? && resp == Ok(VOTE_ADDED)
      && |store.chain| == |old(store.chain)| + 1
      && store.chain[..|old(store.chain)|] == old(store.chain)
      && EntryOf(store.chain[|old(store.chain)|]) == (electionId, voteOptionId)
      && store.chain[|old(store.chain)|].voterId == caller.value
      && store.voters == old(store.voters)[electionId := VotersOf(old(store.voters), electionId) + {caller.value}]
  {
    if caller.None? {
      return Unauthorized;
    }
    var r := store.AddVoteOperation(caller.value, electionId, voteOptionId, timestamp);
    match r
    case Done => resp := Ok(VOTE_ADDED);
    case Failed(err) => resp := BadRequest(err.Message());
  }

  // ---------------------------------------------------------------------
  // Showing a voter's own vote.
  // ---------------------------------------------------------------------

  /** The `user_vote` of a listed election: the recorded option when it is
      one of the election's options, otherwise `null`. */
  function ShownVote(options: set<string>, voteOptionId: string): (r: Option<string>)
    ensures r.Some? <==> voteOptionId in options
    ensures r.Some? ==> r.value == voteOptionId
  {
    if voteOptionId in options then Some(voteOptionId) else None
  }

  /** The view of one pair `get_elections_by_user` returned; a pair whose
      election is not known gives no view. */
  function ViewOf(entry: Entry, elections: map<string, set<string>>): seq<ElectionView> {
    if entry.0 in elections then [ElectionView(entry.0, elections[entry.0], ShownVote(elections[entry.0], entry.1))]
    else []
  }

  /** The views of a list of pairs, in list order. */
  function ElectionViews(entries: seq<Entry>, elections: map<string, set<string>>): (r: seq<ElectionView>)
    ensures |r| <= |entries|
  {
    if entries == [] then []
    else ElectionViews(entries[..|entries| - 1], elections) + ViewOf(entries[|entries| - 1], elections)
  }

  /** Every view belongs to a known election, shows its options, and shows a
      vote only when that vote is one of the options. */
  lemma {:induction false} ElectionViewsSound(entries: seq<Entry>, elections: map<string, set<string>>)
    ensures forall v :: v in ElectionViews(entries, elections) ==>
      && v.electionId in elections && v.voteOptions == elections[v.electionId]
      && (v.userVote.Some? ==> v.userVote.value in v.voteOptions)
      && exists x :: x in entries && x.0 == v.electionId && v.userVote == ShownVote(v.voteOptions, x.1)
  {
    if entries != [] {
      var init := entries[..|entries| - 1];
      ElectionViewsSound(init, elections);
      forall v | v in ElectionViews(entries, elections)
        ensures exists x :: x in entries && x.0 == v.electionId && v.userVote == ShownVote(v.voteOptions, x.1)
      {
        if v in ElectionViews(init, elections) {
          var x :| x in init && x.0 == v.electionId && v.userVote == ShownVote(v.voteOptions, x.1);
          assert x in entries;
        } else {
          assert entries[|entries| - 1] in entries;
        }
      }
    }
  }

  /** When every pair names a known election and one of its options, no
      pair is skipped and each view shows that pair's option. */
  lemma {:induction false} ElectionViewsOfValidEntries(entries: seq<Entry>, elections: map<string, set<string>>)
    requires forall x :: x in entries ==> x.0 in elections && x.1 in elections[x.0]
    ensures ElectionViews(entries, elections)
         == seq(|entries|, k requires 0 <= k < |entries| =>
                ElectionView(entries[k].0, elections[entries[k].0], Some(entries[k].1)))
  {
    if entries != [] {
      var init := entries[..|entries| - 1];
      assert forall x :: x in init ==> x in entries;
      ElectionViewsOfValidEntries(init, elections);
      assert entries[|entries| - 1] in entries;
    }
  }

  /** `handle_get_all_elections`: one view per election the caller voted in. */
  method HandleGetAllElections(store: Blockchain, caller: Option<string>)
    returns (resp: Response<seq<ElectionView>>)
    ensures caller.None? ==> resp == Unauthorized
    ensures caller.Some? ==> resp == Ok(ElectionViews(store.GetElectionsByUser(caller.value), store.elections))
  {
    if caller.None? {
      return Unauthorized;
    }
    var entries := store.GetElectionsByUser(caller.value);
    var views: seq<ElectionView> := [];
    for k := 0 to |entries|
      invariant views == ElectionViews(entries[..k], store.elections)
    {
      var (electionId, voteOptionId) := entries[k];
      if electionId in store.elections {
        var options := store.elections[electionId];
        views := views + [ElectionView(electionId, options, ShownVote(options, voteOptionId))];
      }
      assert entries[..k + 1][..k] == entries[..k];
    }
    assert entries[..|entries|] == entries;
    resp := Ok(views);
  }

  /** In a consistent store, the caller's list has one view per vote they
      cast, in chain order, each showing the option they chose. */
  lemma AllElectionsShowEveryVote(chain: seq<Block>, voters: map<string, set<string>>,
                                  elections: map<string, set<string>>,
                                  creators: map<string, set<string>>, sha256: Sha256, voterId: string)
    requires StoreInvariant(chain, voters, elections, creators, sha256)
    requires voterId != ""
    ensures var entries := UserVotes(chain, voterId);
      && (forall k :: 0 <= k < |entries| ==> entries[k].0 in elections && entries[k].1 in elections[entries[k].0])
      && ElectionViews(entries, elections)
      == seq(|entries|, k requires 0 <= k < |entries| =>
             ElectionView(entries[k].0, elections[entries[k].0], Some(entries[k].1)))
  {
    var entries := UserVotes(chain, voterId);
    UserEntriesValid(chain, voters, elections, creators, sha256, voterId);
    assert forall k :: 0 <= k < |entries| ==> entries[k] in entries;
    ElectionViewsOfValidEntries(entries, elections);
  }

  /** `handle_get_elections_created_by_user`: one view (without a vote) per
      election of the caller that is known. */
  method HandleGetElectionsCreatedByUser(store: Blockchain, caller: Option<string>)
    returns (resp: Response<seq<ElectionView>>)
    ensures caller.None? ==> resp == Unauthorized
    ensures caller.Some? ==> resp.Ok?
    ensures resp.Ok? ==>
      && (forall v :: v in resp.body ==>
            v.electionId in CreatedBy(store.creators, caller.value) && v.electionId in store.elections
            && v.voteOptions == store.elections[v.electionId] && v.userVote.None?)
      && (forall e :: e in CreatedBy(store.creators, caller.value) && e in store.elections ==>
            exists v :: v in resp.body && v.electionId == e)
      && forall i, j :: 0 <= i < j < |resp.body| ==> resp.body[i].electionId != resp.body[j].electionId
  {
    if caller.None? {
      return Unauthorized;
    }
    var created := store.GetElectionsCreatedByUser(caller.value);
    var views: seq<ElectionView> := [];
    for k := 0 to |created|
      invariant forall v :: v in views ==>
        v.electionId in created[..k] && v.electionId in store.elections
        && v.voteOptions == store.elections[v.electionId] && v.userVote.None?
      invariant forall e :: e in created[..k] && e in store.elections ==> exists v :: v in views && v.electionId == e
      invariant forall i, j :: 0 <= i < j < |views| ==> views[i].electionId != views[j].electionId
    {
      var electionId := created[k];
      if electionId in store.elections {
        assert forall v :: v in views ==> v.electionId != electionId;
        views := views + [ElectionView(electionId, store.elections[electionId], None)];
      }
    }
    assert created[..|created|] == created;
    resp := Ok(views);
  }

  /** In a consistent store no created election is skipped. */
  lemma CreatedElectionsAreKnown(chain: seq<Block>, voters: map<string, set<string>>,
                                 elections: map<string, set<string>>,
                                 creators: map<string, set<string>>, sha256: Sha256, creatorId: string)
    requires StoreInvariant(chain, voters, elections, creators, sha256)
    ensures forall e :: e in CreatedBy(creators, creatorId) ==> e in elections
  {
  }

  /** `handle_get_election`: the election named by the `election_id` query
      parameter, with the caller's vote when the `voter_id` parameter is
      present. The caller is looked up by token identity; the value of
      `voter_id` itself is never read. */
  function HandleGetElection(store: Blockchain, electionIdParam: Option<string>,
                             voterIdParam: Option<string>, caller: Option<string>): (resp: Response<ElectionView>)
    reads store
    ensures electionIdParam.None? ==> resp == BadRequest(MISSING_ELECTION_ID)
    ensures electionIdParam.Some? && electionIdParam.value !in store.elections ==>
      resp == NotFound(ELECTION_NOT_FOUND)
    ensures electionIdParam.Some? && electionIdParam.value in store.elections && voterIdParam.Some? && caller.None? ==>
      resp == Unauthorized
    ensures electionIdParam.Some? && electionIdParam.value in store.elections && (voterIdParam.None? || caller.Some?) ==>
      resp.Ok?
    ensures resp.Ok? ==>
      && electionIdParam.Some? && resp.body.electionId == electionIdParam.value
      && electionIdParam.value in store.elections
      && resp.body.voteOptions == store.elections[electionIdParam.value]
      && (resp.body.userVote.Some? <==>
            && voterIdParam.Some? && caller.Some?
            && exists o :: store.GetVotesByUser(caller.value, electionIdParam.value) == Some((electionIdParam.value, o))
                           && o in resp.body.voteOptions && resp.body.userVote == Some(o))
      && (voterIdParam.Some? ==> caller.Some?)
  {
    if electionIdParam.None? then BadRequest(MISSING_ELECTION_ID)
    else
      var electionId := electionIdParam.value;
      if electionId !in store.elections then NotFound(ELECTION_NOT_FOUND)
      else
        var options := store.elections[electionId];
        if voterIdParam.None? then Ok(ElectionView(electionId, options, None))
        else if caller.None? then Unauthorized
        else match store.GetVotesByUser(caller.value, electionId)
          case None => Ok(ElectionView(electionId, options, None))
          case Some((_, voteOptionId)) => Ok(ElectionView(electionId, options, ShownVote(options, voteOptionId)))
  }

  /** In a consistent store, asking for one's own vote shows exactly the
      option one cast in that election, or `null` when one has not voted. */
  lemma GetElectionShowsOwnVote(store: Blockchain, electionId: string, voterIdParam: string, voterId: string)
    requires store.Valid()
    requires electionId in store.elections && (voterId != "" || electionId != "")
    ensures voterId !in VotersOf(store.voters, electionId) ==>
      HandleGetElection(store, Some(electionId), Some(voterIdParam), Some(voterId))
      == Ok(ElectionView(electionId, store.elections[electionId], None))
    ensures forall i :: 0 <= i < |store.chain| && Casts(store.chain[i], voterId, electionId) ==>
      HandleGetElection(store, Some(electionId), Some(voterIdParam), Some(voterId))
      == Ok(ElectionView(electionId, store.elections[electionId], Some(store.chain[i].voteOptionId)))
  {
    RecordedIffCast(store.chain, store.voters, store.elections, store.creators, store.sha256, voterId, electionId);
    forall i | 0 <= i < |store.chain| && Casts(store.chain[i], voterId, electionId)
      ensures HandleGetElection(store, Some(electionId), Some(voterIdParam), Some(voterId))
           == Ok(ElectionView(electionId, store.elections[electionId], Some(store.chain[i].voteOptionId)))
    {
      RecordedVoteIsTheVote(store.chain, store.voters, store.elections, store.creators, store.sha256, voterId, electionId, i);
    }
  }

  // ---------------------------------------------------------------------
  // The results tally.
  // ---------------------------------------------------------------------

  /** A value of the results object: the election id or an option's count. */
  datatype ResultValue = Id(id: string) | Count(n: nat)

  /** Every option mapped to an empty list. */
  function EmptyLists(options: set<string>): (m: map<string, seq<string>>)
    ensures m.Keys == options
    ensures forall o :: o in m ==> m[o] == []
  {
    map o | o in options :: []
  }

  /** One pass of the tally loop over the pair `(election_id, vote_option_id)`.
      If the election is known and the option has no list yet, every option
      of the election is (re)set to an empty list; then the option's list
      gets one more element. */
  function TallyStep(votes: map<string, seq<string>>, entry: Entry,
                     elections: map<string, set<string>>): map<string, seq<string>>
  {
    var (electionId, voteOptionId) := entry;
    var seeded := if electionId in elections && voteOptionId !in votes
                  then votes + EmptyLists(elections[electionId]) else votes;
    seeded[voteOptionId := (if voteOptionId in seeded then seeded[voteOptionId] else []) + [voteOptionId]]
  }

  /** The `votes` map after the tally loop has run over `entries`. */
  function Tally(entries: seq<Entry>, elections: map<string, set<string>>): map<string, seq<string>> {
    if entries == [] then map[]
    else TallyStep(Tally(entries[..|entries| - 1], elections), entries[|entries| - 1], elections)
  }

  /** The number of pairs whose option is `voteOptionId`. */
  function CountOption(entries: seq<Entry>, voteOptionId: string): (n: nat)
    ensures n <= |entries|
  {
    if entries == [] then 0
    else CountOption(entries[..|entries| - 1], voteOptionId) + (if entries[|entries| - 1].1 == voteOptionId then 1 else 0)
  }

  function Repeat(x: string, n: nat): (r: seq<string>)
    ensures |r| == n && forall k :: 0 <= k < n ==> r[k] == x
  {
    seq(n, _ => x)
  }

  /** The tally loop of `handle_get_results_election`. */
  method TallyVotes(entries: seq<Entry>, elections: map<string, set<string>>)
    returns (votes: map<string, seq<string>>)
    ensures votes == Tally(entries, elections)
  {
    votes := map[];
    for k := 0 to |entries|
      invariant votes == Tally(entries[..k], elections)
    {
      var (electionId, voteOptionId) := entries[k];
      ghost var prev := votes;
      if electionId in elections {
        if voteOptionId !in votes {
          var options := elections[electionId];
          var rest := options;
          ghost var before := votes;
          while rest != {}
            invariant rest <= options
            invariant votes == before + EmptyLists(options - rest)
            decreases rest
          {
            var o :| o in rest;
            votes := votes[o := []];
            rest := rest - {o};
            assert votes == before + EmptyLists(options - rest);
          }
          assert options - rest == options;
        }
      }
      assert votes == if electionId in elections && voteOptionId !in prev
                      then prev + EmptyLists(elections[electionId]) else prev;
      if voteOptionId in votes {
        votes := votes[voteOptionId := votes[voteOptionId] + [voteOptionId]];
      } else {
        votes := votes[voteOptionId := [] + [voteOptionId]];
      }
      assert votes == TallyStep(prev, entries[k], elections);
      assert entries[..k + 1][..k] == entries[..k];
    }
    assert entries[..|entries|] == entries;
  }

  /** The results object: `election_id`, then one count per key of `votes`;
      a key that is itself "election_id" overwrites the id, as the source's
      later writes do. */
  function ResultsObject(electionId: string, votes: map<string, seq<string>>): map<string, ResultValue> {
    map["election_id" := Id(electionId)] + map k | k in votes :: Count(|votes[k]|)
  }

  /** The loop that writes each option's count into the response object. */
  method BuildResults(electionId: string, votes: map<string, seq<string>>)
    returns (response: map<string, ResultValue>)
    ensures response == ResultsObject(electionId, votes)
  {
    response := map["election_id" := Id(electionId)];
    var keys := votes.Keys;
    while keys != {}
      invariant keys <= votes.Keys
      invariant response == map["election_id" := Id(electionId)] + map k | k in votes.Keys - keys :: Count(|votes[k]|)
      decreases keys
    {
      var key :| key in keys;
      response := response[key := Count(|votes[key]|)];
      keys := keys - {key};
      assert response == map["election_id" := Id(electionId)] + map k | k in votes.Keys - keys :: Count(|votes[k]|);
    }
    assert votes.Keys - keys == votes.Keys;
  }

  /** `handle_get_results_election`: a one-element list holding the results
      object of the election named by `election_id`. */
  method HandleGetResultsElection(store: Blockchain, electionIdParam: Option<string>)
    returns (resp: Response<seq<map<string, ResultValue>>>)
    ensures electionIdParam.None? ==> resp == BadRequest(MISSING_ELECTION_ID)
    ensures electionIdParam.Some? ==>
      var electionId := electionIdParam.value;
      resp == Ok([ResultsObject(electionId, Tally(store.GetResultsElection(electionId), store.elections))])
  {
    if electionIdParam.None? {
      return BadRequest(MISSING_ELECTION_ID);
    }
    var electionId := electionIdParam.value;
    var entries := store.GetResultsElection(electionId);
    var votes := TallyVotes(entries, store.elections);
    var response := BuildResults(electionId, votes);
    resp := Ok([response]);
  }

  /** What the tally should be: each option of the election, listed once
      per vote for it. */
  function ExpectedTally(options: set<string>, entries: seq<Entry>): map<string, seq<string>> {
    map o | o in options :: Repeat(o, CountOption(entries, o))
  }

  /** The first valid vote seeds every option and counts itself. */
  lemma TallyFirstVote(last: Entry, elections: map<string, set<string>>)
    requires last.0 in elections && last.1 in elections[last.0]
    ensures TallyStep(map[], last, elections) == ExpectedTally(elections[last.0], [last])
  {
    var options := elections[last.0];
    var result := TallyStep(map[], last, elections);
    var expected := ExpectedTally(options, [last]);
    assert map[] + EmptyLists(options) == EmptyLists(options);
    assert result == EmptyLists(options)[last.1 := [] + [last.1]];
    forall o | o in options ensures result[o] == expected[o] {
      assert [last][..0] == [];
    }
    assert result.Keys == expected.Keys;
  }

  /** A later valid vote finds its option seeded and only extends its list. */
  lemma TallyNextVote(init: seq<Entry>, last: Entry, elections: map<string, set<string>>)
    requires last.0 in elections && last.1 in elections[last.0]
    ensures TallyStep(ExpectedTally(elections[last.0], init), last, elections)
         == ExpectedTally(elections[last.0], init + [last])
  {
    var options := elections[last.0];
    var votes := ExpectedTally(options, init);
    var result := TallyStep(votes, last, elections);
    var expected := ExpectedTally(options, init + [last]);
    assert result == votes[last.1 := votes[last.1] + [last.1]];
    forall o | o in options ensures result[o] == expected[o] {
      CountOptionAppend(init, last, o);
      if o == last.1 {
        assert Repeat(o, CountOption(init, o)) + [o] == Repeat(o, CountOption(init + [last], o));
      }
    }
    assert result.Keys == expected.Keys;
  }

  /** When every pair is a valid vote of one election, the first vote seeds
      all of the election's options and no later pass resets them: the tally
      holds every option, with one element per vote for it. */
  lemma {:induction false} TallyOfValidEntries(entries: seq<Entry>, electionId: string,
                                               elections: map<string, set<string>>)
    requires electionId in elections
    requires forall x :: x in entries ==> x.0 == electionId && x.1 in elections[electionId]
    ensures entries == [] ==> Tally(entries, elections) == map[]
    ensures entries != [] ==> Tally(entries, elections) == ExpectedTally(elections[electionId], entries)
  {
    if entries != [] {
      var init, last := entries[..|entries| - 1], entries[|entries| - 1];
      assert last in entries;
      assert forall x :: x in init ==> x in entries;
      assert init + [last] == entries;
      TallyOfValidEntries(init, electionId, elections);
      if init == [] {
        TallyFirstVote(last, elections);
      } else {
        TallyNextVote(init, last, elections);
      }
    }
  }

  /** Without that invariant the tally can lose votes: a pair whose option is
      not one of the election's options resets every option's list. */
  lemma TallyLosesVotesOnUnknownOption()
    ensures var elections := map["e" := {"a", "b"}];
            var entries := [("e", "a"), ("e", "x")];
            CountOption(entries, "a") == 1 && Tally(entries, elections)["a"] == []
  {
    var elections := map["e" := {"a", "b"}];
    var entries := [("e", "a"), ("e", "x")];
    assert entries[..1] == [("e", "a")];
    assert entries[..1][..0] == [];
    var first := Tally(entries[..1], elections);
    assert entries[..1][0] == ("e", "a");
    assert Tally(entries[..1][..0], elections) == map[];
    assert first == TallyStep(map[], ("e", "a"), elections);
    assert map[] + EmptyLists({"a", "b"}) == EmptyLists({"a", "b"});
    assert first == EmptyLists({"a", "b"})["a" := [] + ["a"]];
    assert "x" !in first;
  }

  /** The voters whose vote block for an election chose a given option. */
  ghost function Ballots(chain: seq<Block>, electionId: string, voteOptionId: string): set<string> {
    set i | 1 <= i < |chain| && chain[i].electionId == electionId && chain[i].voteOptionId == voteOptionId :: chain[i].voterId
  }

  lemma CountOptionAppend(xs: seq<Entry>, y: Entry, voteOptionId: string)
    ensures CountOption(xs + [y], voteOptionId) == CountOption(xs, voteOptionId) + (if y.1 == voteOptionId then 1 else 0)
  {
    assert (xs + [y])[..|xs|] == xs;
  }

  lemma BallotsAppend(chain: seq<Block>, b: Block, electionId: string, voteOptionId: string)
    requires |chain| >= 1
    ensures Ballots(chain + [b], electionId, voteOptionId)
         == Ballots(chain, electionId, voteOptionId)
            + (if b.electionId == electionId && b.voteOptionId == voteOptionId then {b.voterId} else {})
  {
    var c := chain + [b];
    forall v | v in Ballots(c, electionId, voteOptionId)
      ensures v in Ballots(chain, electionId, voteOptionId)
                   + (if b.electionId == electionId && b.voteOptionId == voteOptionId then {b.voterId} else {})
    {
      var i :| 1 <= i < |c| && c[i].electionId == electionId && c[i].voteOptionId == voteOptionId && c[i].voterId == v;
      if i < |chain| { assert chain[i] == c[i]; }
    }
    forall v | v in Ballots(chain, electionId, voteOptionId) ensures v in Ballots(c, electionId, voteOptionId) {
      var i :| 1 <= i < |chain| && chain[i].electionId == electionId && chain[i].voteOptionId == voteOptionId && chain[i].voterId == v;
      assert c[i] == chain[i];
    }
    assert c[|chain|] == b;
  }

  /** A voter's block is their only block in its election, so it adds a
      voter not yet counted. */
  lemma NewBallot(chain: seq<Block>, b: Block, voteOptionId: string)
    requires |chain| >= 1 && OneVoteEach(chain + [b])
    ensures b.voterId !in Ballots(chain, b.electionId, voteOptionId)
  {
    var c := chain + [b];
    forall i | 1 <= i < |chain| && chain[i].electionId == b.electionId ensures chain[i].voterId != b.voterId {
      assert c[i] == chain[i] && c[|chain|] == b;
    }
  }

  /** With one vote per voter and election, the number of pairs for an option
      is the number of distinct voters who chose it. */
  lemma {:induction false} CountIsBallots(chain: seq<Block>, electionId: string, voteOptionId: string)
    requires |chain| >= 1 && OneVoteEach(chain) && chain[0].electionId != electionId
    ensures CountOption(ElectionEntries(chain, electionId), voteOptionId) == |Ballots(chain, electionId, voteOptionId)|
  {
    var n := |chain|;
    if n == 1 {
      assert ElectionEntries(chain, electionId) == [] by {
        assert chain[1..] == [];
      }
      assert Ballots(chain, electionId, voteOptionId) == {};
    } else {
      var c, b := chain[..n - 1], chain[n - 1];
      assert chain == c + [b];
      assert OneVoteEach(c) by {
        forall i, j | 1 <= i < j < |c| ensures !(c[i].voterId == c[j].voterId && c[i].electionId == c[j].electionId) {
          assert c[i] == chain[i] && c[j] == chain[j];
        }
      }
      CountIsBallots(c, electionId, voteOptionId);
      ElectionEntriesAppend(c, b, electionId);
      BallotsAppend(c, b, electionId, voteOptionId);
      var xs := ElectionEntries(c, electionId);
      if b.electionId == electionId {
        CountOptionAppend(xs, EntryOf(b), voteOptionId);
        NewBallot(c, b, voteOptionId);
      } else {
        assert xs + [] == xs;
      }
    }
  }

  /** In a consistent store the results of any election but "" list every
      option of the election with the number of distinct voters who chose
      it, once anyone has voted; with no votes only `election_id` is shown. */
  lemma ResultsOfConsistentStore(store: Blockchain, electionId: string)
    requires store.Valid() && electionId != ""
    ensures var entries := ElectionEntries(store.chain, electionId);
      && (entries == [] ==>
            ResultsObject(electionId, Tally(entries, store.elections)) == map["election_id" := Id(electionId)])
      && (entries != [] ==>
            && electionId in store.elections
            && ResultsObject(electionId, Tally(entries, store.elections))
               == map["election_id" := Id(electionId)]
                  + map o | o in store.elections[electionId] :: Count(|Ballots(store.chain, electionId, o)|))
  {
    var entries := ElectionEntries(store.chain, electionId);
    ResultEntriesValid(store.chain, store.voters, store.elections, store.creators, store.sha256, electionId);
    if entries == [] {
      assert ResultsObject(electionId, map[]) == map["election_id" := Id(electionId)];
    } else {
      assert entries[0] in entries;
      TallyOfValidEntries(entries, electionId, store.elections);
      forall o | o in store.elections[electionId]
        ensures CountOption(entries, o) == |Ballots(store.chain, electionId, o)|
      {
        CountIsBallots(store.chain, electionId, o);
      }
      CountsOfExpectedTally(electionId, store.elections[electionId], entries, store.chain);
    }
  }

  /** The results object of a seeded tally shows each option's count. */
  lemma CountsOfExpectedTally(electionId: string, options: set<string>, entries: seq<Entry>, chain: seq<Block>)
    requires forall o :: o in options ==> CountOption(entries, o) == |Ballots(chain, electionId, o)|
    ensures ResultsObject(electionId, ExpectedTally(options, entries))
         == map["election_id" := Id(electionId)] + map o | o in options :: Count(|Ballots(chain, electionId, o)|)
  {
    var tally := ExpectedTally(options, entries);
    var counts := map k | k in tally :: Count(|tally[k]|);
    assert counts == map o | o in options :: Count(|Ballots(chain, electionId, o)|);
  }
}
