/** The vote ledger and election store (`Blockchain` in the source): the
    chain of blocks plus three indices, the voters of each election, the
    options of each election and the elections of each creator. Each
    operation runs whole, as it does under the store's single lock. */
module Ledger {
  import opened Wrappers
  import opened Bincode
  import opened Blocks

  /** The errors the store returns, with the source's messages. */
  datatype StoreError = ElectionAlreadyExists | ElectionNotFound | InvalidOption | AlreadyVoted {
    function Message(): string {
      match this
      case ElectionAlreadyExists => "Election already exists"
      case ElectionNotFound => "Election does not exist"
      case InvalidOption => "Vote option does not exist in this election"
      case AlreadyVoted => "Voter has already voted in this election"
    }
  }

  /** `Result<(), String>` of the store's two updating operations. */
  datatype Outcome = Done | Failed(error: StoreError)

  /** `(election_id, vote_option_id)`, the pair the queries return. */
  type Entry = (string, string)

  function EntryOf(b: Block): Entry {
    (b.electionId, b.voteOptionId)
  }

  /** The genesis block: index 0, empty ids, previous hash "0". */
  function Genesis(sha256: Sha256, timestamp: u128): Block {
    NewBlock(sha256, 0, timestamp, "", "", "", "0")
  }

  /** The voters recorded for an election, empty if it has no entry yet. */
  function VotersOf(voters: map<string, set<string>>, electionId: string): set<string> {
    if electionId in voters then voters[electionId] else {}
  }

  /** The elections recorded for a creator, empty if the creator is unknown. */
  function CreatedBy(creators: map<string, set<string>>, creatorId: string): set<string> {
    if creatorId in creators then creators[creatorId] else {}
  }

  // ---------------------------------------------------------------------
  // The store invariant. Block 0 is the genesis block; blocks 1.. are votes.
  // ---------------------------------------------------------------------

  /** Never empty; block i has index i and links to block i - 1. */
  ghost predicate Linked(chain: seq<Block>) {
    && |chain| >= 1
    && (forall i :: 0 <= i < |chain| ==> chain[i].index == i)
    && (forall i :: 1 <= i < |chain| ==> chain[i].previousHash == chain[i - 1].hash)
  }

  ghost predicate IsGenesis(b: Block) {
    b.index == 0 && b.voterId == "" && b.electionId == "" && b.voteOptionId == "" && b.previousHash == "0"
  }

  /** Every block's stored hash is its recomputed hash (stated from the tip
      down, the order in which blocks are added). */
  ghost predicate HashesMatch(chain: seq<Block>, sha256: Sha256) {
    chain == [] || (HashMatches(chain[|chain| - 1], sha256) && HashesMatch(chain[..|chain| - 1], sha256))
  }

  lemma {:induction false} HashesMatchAt(chain: seq<Block>, sha256: Sha256, i: int)
    requires HashesMatch(chain, sha256) && 0 <= i < |chain|
    ensures HashMatches(chain[i], sha256)
  {
    if i < |chain| - 1 {
      HashesMatchAt(chain[..|chain| - 1], sha256, i);
    }
  }

  /** The elections some vote block belongs to. */
  ghost function VotedElections(chain: seq<Block>): set<string> {
    set i | 1 <= i < |chain| :: chain[i].electionId
  }

  /** The voters of the vote blocks of one election. */
  ghost function VotersIn(chain: seq<Block>, electionId: string): set<string> {
    set i | 1 <= i < |chain| && chain[i].electionId == electionId :: chain[i].voterId
  }

  /** `voters` is exactly the (election, voter) index of the vote blocks. */
  ghost predicate IndexesVotes(voters: map<string, set<string>>, chain: seq<Block>) {
    && voters.Keys == VotedElections(chain)
    && forall e :: e in voters ==> voters[e] == VotersIn(chain, e)
  }

  /** No two vote blocks share a (voter, election) pair. */
  ghost predicate OneVoteEach(chain: seq<Block>) {
    forall i, j :: 1 <= i < j < |chain| ==>
      !(chain[i].voterId == chain[j].voterId && chain[i].electionId == chain[j].electionId)
  }

  /** Every vote block names an election and one of its options. */
  ghost predicate VotesAreValid(chain: seq<Block>, elections: map<string, set<string>>) {
    forall i :: 1 <= i < |chain| ==>
      chain[i].electionId in elections && chain[i].voteOptionId in elections[chain[i].electionId]
  }

  ghost predicate CreatorsKnown(creators: map<string, set<string>>, elections: map<string, set<string>>) {
    forall c :: c in creators ==> creators[c] <= elections.Keys
  }

  ghost predicate StoreInvariant(chain: seq<Block>, voters: map<string, set<string>>,
                                 elections: map<string, set<string>>,
                                 creators: map<string, set<string>>, sha256: Sha256) {
    && Linked(chain)
    && IsGenesis(chain[0])
    && HashesMatch(chain, sha256)
    && IndexesVotes(voters, chain)
    && OneVoteEach(chain)
    && VotesAreValid(chain, elections)
    && CreatorsKnown(creators, elections)
  }

  // ---------------------------------------------------------------------
  // The read-only queries, as functions of the chain.
  // ---------------------------------------------------------------------

  predicate Casts(b: Block, voterId: string, electionId: string) {
    b.voterId == voterId && b.electionId == electionId
  }

  /** `get_votes_by_user`: the newest block with both ids, scanning from the tip. */
  function LastVote(chain: seq<Block>, voterId: string, electionId: string): (r: Option<Entry>)
    ensures r.None? <==> forall i :: 0 <= i < |chain| ==> !Casts(chain[i], voterId, electionId)
    ensures r.Some? ==>
      exists i :: 0 <= i < |chain| && Casts(chain[i], voterId, electionId) && r.value == EntryOf(chain[i])
        && forall j :: i < j < |chain| ==> !Casts(chain[j], voterId, electionId)
  {
    if chain == [] then None
    else if Casts(chain[|chain| - 1], voterId, electionId) then Some(EntryOf(chain[|chain| - 1]))
    else
      var prefix := chain[..|chain| - 1];
      assert forall i :: 0 <= i < |prefix| ==> prefix[i] == chain[i];
      LastVote(prefix, voterId, electionId)
  }

  /** `get_elections_by_user`: the entry of every block of the voter, in chain order. */
  function UserVotes(chain: seq<Block>, voterId: string): (r: seq<Entry>)
    ensures |r| <= |chain|
  {
    if chain == [] then []
    else (if chain[0].voterId == voterId then [EntryOf(chain[0])] else []) + UserVotes(chain[1..], voterId)
  }

  /** `get_results_election`: the entry of every block of the election, in chain order. */
  function ElectionEntries(chain: seq<Block>, electionId: string): (r: seq<Entry>)
    ensures |r| <= |chain|
    ensures forall k :: 0 <= k < |r| ==> r[k].0 == electionId
  {
    if chain == [] then []
    else (if chain[0].electionId == electionId then [EntryOf(chain[0])] else []) + ElectionEntries(chain[1..], electionId)
  }

  lemma {:induction false} UserVotesMembers(chain: seq<Block>, voterId: string, x: Entry)
    ensures x in UserVotes(chain, voterId) <==> exists i :: 0 <= i < |chain| && chain[i].voterId == voterId && x == EntryOf(chain[i])
  {
    if chain != [] {
      var tail := chain[1..];
      assert forall i :: 0 <= i < |tail| ==> tail[i] == chain[i + 1];
      UserVotesMembers(tail, voterId, x);
      if x in UserVotes(tail, voterId) {
        var i :| 0 <= i < |tail| && tail[i].voterId == voterId && x == EntryOf(tail[i]);
        assert chain[i + 1].voterId == voterId && x == EntryOf(chain[i + 1]);
      }
      if exists i :: 0 < i < |chain| && chain[i].voterId == voterId && x == EntryOf(chain[i]) {
        var i :| 0 < i < |chain| && chain[i].voterId == voterId && x == EntryOf(chain[i]);
        assert tail[i - 1].voterId == voterId && x == EntryOf(tail[i - 1]);
      }
    }
  }

  lemma {:induction false} ElectionEntriesMembers(chain: seq<Block>, electionId: string, x: Entry)
    ensures x in ElectionEntries(chain, electionId) <==> exists i :: 0 <= i < |chain| && chain[i].electionId == electionId && x == EntryOf(chain[i])
  {
    if chain != [] {
      var tail := chain[1..];
      assert forall i :: 0 <= i < |tail| ==> tail[i] == chain[i + 1];
      ElectionEntriesMembers(tail, electionId, x);
      if x in ElectionEntries(tail, electionId) {
        var i :| 0 <= i < |tail| && tail[i].electionId == electionId && x == EntryOf(tail[i]);
        assert chain[i + 1].electionId == electionId && x == EntryOf(chain[i + 1]);
      }
      if exists i :: 0 < i < |chain| && chain[i].electionId == electionId && x == EntryOf(chain[i]) {
        var i :| 0 < i < |chain| && chain[i].electionId == electionId && x == EntryOf(chain[i]);
        assert tail[i - 1].electionId == electionId && x == EntryOf(tail[i - 1]);
      }
    }
  }

  /** Appending a block extends the voter's list by that block's entry alone. */
  lemma {:induction false} UserVotesAppend(chain: seq<Block>, b: Block, voterId: string)
    ensures UserVotes(chain + [b], voterId) == UserVotes(chain, voterId) + (if b.voterId == voterId then [EntryOf(b)] else [])
  {
    if chain != [] {
      assert (chain + [b])[1..] == chain[1..] + [b];
      UserVotesAppend(chain[1..], b, voterId);
    }
  }

  /** Appending a block extends the election's results by that block's entry alone. */
  lemma {:induction false} ElectionEntriesAppend(chain: seq<Block>, b: Block, electionId: string)
    ensures ElectionEntries(chain + [b], electionId)
         == ElectionEntries(chain, electionId) + (if b.electionId == electionId then [EntryOf(b)] else [])
  {
    if chain != [] {
      assert (chain + [b])[1..] == chain[1..] + [b];
      ElectionEntriesAppend(chain[1..], b, electionId);
    }
  }

  // ---------------------------------------------------------------------
  // Facts about the index sets when a vote block is appended.
  // ---------------------------------------------------------------------

  lemma VotedElectionsAppend(chain: seq<Block>, b: Block)
    requires |chain| >= 1
    ensures VotedElections(chain + [b]) == VotedElections(chain) + {b.electionId}
  {
    var c := chain + [b];
    forall e | e in VotedElections(c) ensures e in VotedElections(chain) + {b.electionId} {
      var i :| 1 <= i < |c| && c[i].electionId == e;
      if i < |chain| { assert chain[i] == c[i]; }
    }
    forall e | e in VotedElections(chain) ensures e in VotedElections(c) {
      var i :| 1 <= i < |chain| && chain[i].electionId == e;
      assert c[i] == chain[i];
    }
    assert c[|chain|] == b;
  }

  lemma VotersInAppend(chain: seq<Block>, b: Block, electionId: string)
    requires |chain| >= 1
    ensures VotersIn(chain + [b], electionId)
         == VotersIn(chain, electionId) + (if b.electionId == electionId then {b.voterId} else {})
  {
    var c := chain + [b];
    forall v | v in VotersIn(c, electionId)
      ensures v in VotersIn(chain, electionId) + (if b.electionId == electionId then {b.voterId} else {})
    {
      var i :| 1 <= i < |c| && c[i].electionId == electionId && c[i].voterId == v;
      if i < |chain| { assert chain[i] == c[i]; }
    }
    forall v | v in VotersIn(chain, electionId) ensures v in VotersIn(c, electionId) {
      var i :| 1 <= i < |chain| && chain[i].electionId == electionId && chain[i].voterId == v;
      assert c[i] == chain[i];
    }
    assert c[|chain|] == b;
  }

  lemma LinkedAppend(chain: seq<Block>, b: Block)
    requires Linked(chain)
    requires b.index == chain[|chain| - 1].index + 1 && b.previousHash == chain[|chain| - 1].hash
    ensures Linked(chain + [b])
  {
    var c := chain + [b];
    assert forall i :: 0 <= i < |chain| ==> c[i] == chain[i];
  }

  lemma HashesMatchAppend(chain: seq<Block>, b: Block, sha256: Sha256)
    requires HashesMatch(chain, sha256) && HashMatches(b, sha256)
    ensures HashesMatch(chain + [b], sha256)
  {
    assert (chain + [b])[..|chain|] == chain;
  }

  lemma IndexesVotesAppend(chain: seq<Block>, voters: map<string, set<string>>, b: Block)
    requires |chain| >= 1 && IndexesVotes(voters, chain)
    ensures IndexesVotes(voters[b.electionId := VotersOf(voters, b.electionId) + {b.voterId}], chain + [b])
  {
    var c := chain + [b];
    var vs := voters[b.electionId := VotersOf(voters, b.electionId) + {b.voterId}];
    VotedElectionsAppend(chain, b);
    forall e | e in vs ensures vs[e] == VotersIn(c, e) {
      VotersInAppend(chain, b, e);
    }
  }

  lemma OneVoteEachAppend(chain: seq<Block>, voters: map<string, set<string>>, b: Block)
    requires OneVoteEach(chain) && IndexesVotes(voters, chain)
    requires b.voterId !in VotersOf(voters, b.electionId)
    ensures OneVoteEach(chain + [b])
  {
    var c := chain + [b];
    forall i, j | 1 <= i < j < |c|
      ensures !(c[i].voterId == c[j].voterId && c[i].electionId == c[j].electionId)
    {
      assert c[i] == chain[i];
      if j == |chain| {
        assert c[j] == b;
        if chain[i].electionId == b.electionId {
          assert chain[i].voterId in VotersIn(chain, b.electionId);
        }
      } else {
        assert c[j] == chain[j];
      }
    }
  }

  lemma VotesAreValidAppend(chain: seq<Block>, elections: map<string, set<string>>, b: Block)
    requires VotesAreValid(chain, elections)
    requires b.electionId in elections && b.voteOptionId in elections[b.electionId]
    ensures VotesAreValid(chain + [b], elections)
  {
    var c := chain + [b];
    assert forall i :: 0 <= i < |chain| ==> c[i] == chain[i];
  }

  /** A vote block that passes the three checks keeps the invariant. */
  lemma AppendVotePreserves(chain: seq<Block>, voters: map<string, set<string>>,
                            elections: map<string, set<string>>,
                            creators: map<string, set<string>>, sha256: Sha256, b: Block)
    requires StoreInvariant(chain, voters, elections, creators, sha256)
    requires b.electionId in elections && b.voteOptionId in elections[b.electionId]
    requires b.voterId !in VotersOf(voters, b.electionId)
    requires b.index == chain[|chain| - 1].index + 1 && b.previousHash == chain[|chain| - 1].hash
    requires HashMatches(b, sha256)
    ensures StoreInvariant(chain + [b], voters[b.electionId := VotersOf(voters, b.electionId) + {b.voterId}],
                           elections, creators, sha256)
  {
    LinkedAppend(chain, b);
    HashesMatchAppend(chain, b, sha256);
    IndexesVotesAppend(chain, voters, b);
    OneVoteEachAppend(chain, voters, b);
    VotesAreValidAppend(chain, elections, b);
    assert (chain + [b])[0] == chain[0];
  }

  /** Registering a new election keeps the invariant. */
  lemma AddElectionPreserves(chain: seq<Block>, voters: map<string, set<string>>,
                             elections: map<string, set<string>>,
                             creators: map<string, set<string>>, sha256: Sha256,
                             electionId: string, voteOptions: set<string>, creatorId: string)
    requires StoreInvariant(chain, voters, elections, creators, sha256)
    requires electionId !in elections
    ensures StoreInvariant(chain, voters, elections[electionId := voteOptions],
                           creators[creatorId := CreatedBy(creators, creatorId) + {electionId}], sha256)
  {
  }

  /** Every block's hashed fields fit bincode's u64 length prefixes. */
  ghost predicate AllEncodable(chain: seq<Block>) {
    forall i :: 0 <= i < |chain| ==> Encodable(Fields(chain[i]))
  }

  /** The digest has no collision between the serialisation of a block of
      `c1` and that of a block of `c2`. (No function from all byte sequences
      to 32 bytes is injective, so this is assumed only of the inputs the
      chains actually hash.) */
  ghost predicate NoCollisions(sha256: Sha256, c1: seq<Block>, c2: seq<Block>) {
    forall i, j :: 0 <= i < |c1| && 0 <= j < |c2| ==>
      (sha256(Serialize(Fields(c1[i]))) == sha256(Serialize(Fields(c2[j]))) ==>
       Serialize(Fields(c1[i])) == Serialize(Fields(c2[j])))
  }

  /** No collisions between two chains means none between their prefixes. */
  lemma NoCollisionsPrefix(sha256: Sha256, c1: seq<Block>, c2: seq<Block>, n1: nat, n2: nat)
    requires NoCollisions(sha256, c1, c2) && n1 <= |c1| && n2 <= |c2|
    ensures NoCollisions(sha256, c1[..n1], c2[..n2])
  {
    forall i, j | 0 <= i < n1 && 0 <= j < n2
      ensures sha256(Serialize(Fields(c1[..n1][i]))) == sha256(Serialize(Fields(c2[..n2][j]))) ==>
              Serialize(Fields(c1[..n1][i])) == Serialize(Fields(c2[..n2][j]))
    {
      assert c1[..n1][i] == c1[i] && c2[..n2][j] == c2[j];
    }
  }

  /** A chain whose blocks are linked, consistently hashed and encodable. */
  ghost predicate Sound(chain: seq<Block>, sha256: Sha256) {
    Linked(chain) && HashesMatch(chain, sha256) && AllEncodable(chain)
  }

  /** Dropping the tip keeps a chain sound, and the new tip is the block the
      old tip pointed to. */
  lemma ChainPrefix(sha256: Sha256, c: seq<Block>)
    requires |c| >= 2 && Sound(c, sha256)
    ensures Sound(c[..|c| - 1], sha256)
    ensures c[..|c| - 1][|c| - 2].hash == c[|c| - 1].previousHash
  {
    var p := c[..|c| - 1];
    assert forall i :: 0 <= i < |p| ==> p[i] == c[i];
  }

  /** Two sound chains whose tips have the same hash have the same tip. */
  lemma SameTip(sha256: Sha256, c1: seq<Block>, c2: seq<Block>)
    requires NoCollisions(sha256, c1, c2) && Sound(c1, sha256) && Sound(c2, sha256)
    requires c1[|c1| - 1].hash == c2[|c2| - 1].hash
    ensures |c1| == |c2| && c1[|c1| - 1] == c2[|c2| - 1]
  {
    HashBindsFields(sha256, c1[|c1| - 1], c2[|c2| - 1]);
  }

  lemma SnocEqual(c1: seq<Block>, c2: seq<Block>)
    requires |c1| == |c2| >= 1
    requires c1[..|c1| - 1] == c2[..|c2| - 1] && c1[|c1| - 1] == c2[|c2| - 1]
    ensures c1 == c2
  {
    assert c1 == c1[..|c1| - 1] + [c1[|c1| - 1]];
    assert c2 == c2[..|c2| - 1] + [c2[|c2| - 1]];
  }

  /** Unless the digest collides on blocks of the two chains, the hash of
      the tip commits to the whole chain: two sound chains with the same tip
      hash are the same chain. */
  lemma {:induction false} TipHashDeterminesChain(sha256: Sha256, c1: seq<Block>, c2: seq<Block>)
    requires NoCollisions(sha256, c1, c2) && Sound(c1, sha256) && Sound(c2, sha256)
    requires c1[|c1| - 1].hash == c2[|c2| - 1].hash
    ensures c1 == c2
    decreases |c1|
  {
    SameTip(sha256, c1, c2);
    if |c1| > 1 {
      ChainPrefix(sha256, c1);
      ChainPrefix(sha256, c2);
      NoCollisionsPrefix(sha256, c1, c2, |c1| - 1, |c2| - 1);
      TipHashDeterminesChain(sha256, c1[..|c1| - 1], c2[..|c2| - 1]);
    }
    SnocEqual(c1, c2);
  }

  // ---------------------------------------------------------------------
  // What the invariant says about the queries.
  // ---------------------------------------------------------------------

  /** Only the genesis block has an empty election id, and it has an empty
      voter id too, so a pair other than ("", "") never matches it. */
  lemma NotGenesis(chain: seq<Block>, i: int, voterId: string, electionId: string)
    requires |chain| >= 1 && IsGenesis(chain[0]) && 0 <= i < |chain|
    requires voterId != "" || electionId != ""
    requires Casts(chain[i], voterId, electionId)
    ensures i >= 1
  {
  }

  /** A voter is recorded for an election exactly when a block of theirs
      for that election exists; so the election list shows a vote exactly
      for the voters the duplicate check would refuse. */
  lemma RecordedIffCast(chain: seq<Block>, voters: map<string, set<string>>,
                        elections: map<string, set<string>>,
                        creators: map<string, set<string>>, sha256: Sha256,
                        voterId: string, electionId: string)
    requires StoreInvariant(chain, voters, elections, creators, sha256)
    requires voterId != "" || electionId != ""
    ensures voterId in VotersOf(voters, electionId) <==> LastVote(chain, voterId, electionId).Some?
  {
    if LastVote(chain, voterId, electionId).Some? {
      var i :| 0 <= i < |chain| && Casts(chain[i], voterId, electionId);
      NotGenesis(chain, i, voterId, electionId);
      assert voterId in VotersIn(chain, electionId);
      assert electionId in VotedElections(chain);
    }
    if voterId in VotersOf(voters, electionId) {
      assert voterId in VotersIn(chain, electionId);
      var i :| 1 <= i < |chain| && chain[i].electionId == electionId && chain[i].voterId == voterId;
      assert Casts(chain[i], voterId, electionId);
    }
  }

  /** The vote `get_votes_by_user` finds is the one vote the voter cast in
      that election, and its option is one of the election's options. */
  lemma RecordedVoteIsTheVote(chain: seq<Block>, voters: map<string, set<string>>,
                              elections: map<string, set<string>>,
                              creators: map<string, set<string>>, sha256: Sha256,
                              voterId: string, electionId: string, i: int)
    requires StoreInvariant(chain, voters, elections, creators, sha256)
    requires voterId != "" || electionId != ""
    requires 0 <= i < |chain| && Casts(chain[i], voterId, electionId)
    ensures LastVote(chain, voterId, electionId) == Some(EntryOf(chain[i]))
    ensures electionId in elections && chain[i].voteOptionId in elections[electionId]
  {
    NotGenesis(chain, i, voterId, electionId);
    var r := LastVote(chain, voterId, electionId);
    var j :| 0 <= j < |chain| && Casts(chain[j], voterId, electionId) && r.value == EntryOf(chain[j])
             && forall k :: j < k < |chain| ==> !Casts(chain[k], voterId, electionId);
    NotGenesis(chain, j, voterId, electionId);
  }

  /** Apart from the genesis pair, every pair `get_elections_by_user` lists
      names an existing election and one of its options. */
  lemma UserEntriesValid(chain: seq<Block>, voters: map<string, set<string>>,
                         elections: map<string, set<string>>,
                         creators: map<string, set<string>>, sha256: Sha256, voterId: string)
    requires StoreInvariant(chain, voters, elections, creators, sha256)
    requires voterId != ""
    ensures forall x :: x in UserVotes(chain, voterId) ==> x.0 in elections && x.1 in elections[x.0]
  {
    forall x | x in UserVotes(chain, voterId) ensures x.0 in elections && x.1 in elections[x.0] {
      UserVotesMembers(chain, voterId, x);
      var i :| 0 <= i < |chain| && chain[i].voterId == voterId && x == EntryOf(chain[i]);
      assert i != 0;
    }
  }

  /** For any election id but "", every pair `get_results_election` returns
      is a valid option of that election. */
  lemma ResultEntriesValid(chain: seq<Block>, voters: map<string, set<string>>,
                           elections: map<string, set<string>>,
                           creators: map<string, set<string>>, sha256: Sha256, electionId: string)
    requires StoreInvariant(chain, voters, elections, creators, sha256)
    requires electionId != ""
    ensures forall x :: x in ElectionEntries(chain, electionId) ==> x.0 == electionId && x.0 in elections && x.1 in elections[x.0]
  {
    forall x | x in ElectionEntries(chain, electionId) ensures x.0 == electionId && x.0 in elections && x.1 in elections[x.0] {
      ElectionEntriesMembers(chain, electionId, x);
      var i :| 0 <= i < |chain| && chain[i].electionId == electionId && x == EntryOf(chain[i]);
      assert i != 0;
    }
  }

  /** The queries do not skip the genesis block: for the empty ids it
      matches like a vote, with the pair ("", ""). */
  lemma GenesisMatchesEmptyIds(chain: seq<Block>, voters: map<string, set<string>>,
                               elections: map<string, set<string>>,
                               creators: map<string, set<string>>, sha256: Sha256)
    requires StoreInvariant(chain, voters, elections, creators, sha256)
    ensures |UserVotes(chain, "")| >= 1 && UserVotes(chain, "")[0] == ("", "")
    ensures |ElectionEntries(chain, "")| >= 1 && ElectionEntries(chain, "")[0] == ("", "")
    ensures LastVote(chain, "", "").Some?
  {
    assert Casts(chain[0], "", "");
  }

  /** Creating an empty voter set when absent and then inserting the voter
      adds the voter to the election's set. */
  lemma SeedThenInsert(before: map<string, set<string>>, seeded: map<string, set<string>>,
                       electionId: string, voterId: string)
    requires seeded == if electionId in before then before else before[electionId := {}]
    ensures seeded[electionId := seeded[electionId] + {voterId}]
         == before[electionId := VotersOf(before, electionId) + {voterId}]
  {
    if electionId !in before {
      assert seeded[electionId] + {voterId} == VotersOf(before, electionId) + {voterId};
      assert seeded[electionId := seeded[electionId] + {voterId}]
          == before[electionId := {}][electionId := VotersOf(before, electionId) + {voterId}];
    }
  }

  // ---------------------------------------------------------------------
  // The store.
  // ---------------------------------------------------------------------

  class Blockchain {
    var chain: seq<Block>
    var voters: map<string, set<string>>
    var elections: map<string, set<string>>
    var creators: map<string, set<string>>
    /** The digest function blocks are hashed with. */
    const sha256: Sha256

    ghost predicate Valid()
      reads this
    {
      StoreInvariant(chain, voters, elections, creators, sha256)
    }

    /** `Blockchain::new`: the genesis block and empty indices. */
    constructor (sha256: Sha256, timestamp: u128)
      ensures Valid()
      ensures this.sha256 == sha256
      ensures chain == [Genesis(sha256, timestamp)]
      ensures voters == map[] && elections == map[] && creators == map[]
    {
      this.sha256 := sha256;
      chain := [];
      voters := map[];
      elections := map[];
      creators := map[];
      new;
      var genesis := NewBlock(sha256, 0, timestamp, "", "", "", "0");
      chain := chain + [genesis];
    }

    method CreateElection(electionId: string, voteOptions: set<string>, creatorId: string) returns (r: Outcome)
      requires Valid()
      modifies this
      ensures Valid()
      ensures chain == old(chain) && voters == old(voters)
      ensures electionId in old(elections) ==>
        r == Failed(ElectionAlreadyExists) && elections == old(elections) && creators == old(creators)
      ensures electionId !in old(elections) ==>
        && r == Done
        && elections == old(elections)[electionId := voteOptions]
        && creators == old(creators)[creatorId := CreatedBy(old(creators), creatorId) + {electionId}]
    {
      if electionId in elections {
        return Failed(ElectionAlreadyExists);
      }
      AddElectionPreserves(chain, voters, elections, creators, sha256, electionId, voteOptions, creatorId);
      if creatorId in creators {
        creators := creators[creatorId := creators[creatorId] + {electionId}];
      } else {
        creators := creators[creatorId := {electionId}];
        assert creators[creatorId] == CreatedBy(old(creators), creatorId) + {electionId};
      }
      elections := elections[electionId := voteOptions];
      r := Done;
    }

    method AddVoteOperation(voterId: string, electionId: string, voteOptionId: string, timestamp: u128)
      returns (r: Outcome)
      requires Valid()
      requires |chain| < U64_LIMIT
      modifies this
      ensures Valid()
      ensures elections == old(elections) && creators == old(creators)
      ensures electionId !in old(elections) ==> r == Failed(ElectionNotFound)
      ensures electionId in old(elections) && voteOptionId !in old(elections)[electionId] ==>
        r == Failed(InvalidOption)
      ensures electionId in old(elections) && voteOptionId in old(elections)[electionId]
              && voterId in VotersOf(old(voters), electionId) ==>
        r == Failed(AlreadyVoted)
      ensures electionId in old(elections) && voteOptionId in old(elections)[electionId]
              && voterId !in VotersOf(old(voters), electionId) ==>
        r == Done
      ensures r.Failed? ==> chain == old(chain) && voters == old(voters)
      ensures r.Done? ==>
        var last := old(chain)[|old(chain)| - 1];
        && chain == old(chain) + [NewBlock(sha256, last.index + 1, timestamp, voterId, electionId, voteOptionId, last.hash)]
        && voters == old(voters)[electionId := VotersOf(old(voters), electionId) + {voterId}]
    {
      if electionId in elections {
        if voteOptionId !in elections[electionId] {
          return Failed(InvalidOption);
        }
      } else {
        return Failed(ElectionNotFound);
      }

      if electionId in voters {
        if voterId in voters[electionId] {
          return Failed(AlreadyVoted);
        }
      }
      RecordVote(voterId, electionId, voteOptionId, timestamp);
      r := Done;
    }

    /** The rest of `add_vote_operation` once its three checks have passed:
        the election's voter set is created if absent, the new block is
        linked to the tip and pushed, and the voter is recorded. */
    method RecordVote(voterId: string, electionId: string, voteOptionId: string, timestamp: u128)
      requires Valid()
      requires |chain| < U64_LIMIT
      requires electionId in elections && voteOptionId in elections[electionId]
      requires voterId !in VotersOf(voters, electionId)
      modifies this
      ensures Valid()
      ensures elections == old(elections) && creators == old(creators)
      ensures
        var last := old(chain)[|old(chain)| - 1];
        && chain == old(chain) + [NewBlock(sha256, last.index + 1, timestamp, voterId, electionId, voteOptionId, last.hash)]
        && voters == old(voters)[electionId := VotersOf(old(voters), electionId) + {voterId}]
    {
      var last := chain[|chain| - 1];
      assert last.index == |chain| - 1;
      var block := NewBlock(sha256, last.index + 1, timestamp, voterId, electionId, voteOptionId, last.hash);
      AppendVotePreserves(chain, voters, elections, creators, sha256, block);
      ghost var before := voters;
      if electionId !in voters {
        voters := voters[electionId := {}];
      }
      SeedThenInsert(before, voters, electionId, voterId);
      chain := chain + [block];
      voters := voters[electionId := voters[electionId] + {voterId}];
    }

    function GetVotesByUser(voterId: string, electionId: string): Option<Entry>
      reads this
    {
      LastVote(chain, voterId, electionId)
    }

    function GetElectionsByUser(voterId: string): seq<Entry>
      reads this
    {
      UserVotes(chain, voterId)
    }

    /** `get_elections_created_by_user`: the creator's elections in some
        order (the source collects a hash set). */
    method GetElectionsCreatedByUser(creatorId: string) returns (r: seq<string>)
      ensures forall e :: e in r <==> e in CreatedBy(creators, creatorId)
      ensures forall i, j :: 0 <= i < j < |r| ==> r[i] != r[j]
    {
      r := [];
      var rest := CreatedBy(creators, creatorId);
      while rest != {}
        invariant forall e :: e in r <==> e in CreatedBy(creators, creatorId) && e !in rest
        invariant rest <= CreatedBy(creators, creatorId)
        invariant forall i, j :: 0 <= i < j < |r| ==> r[i] != r[j]
        decreases rest
      {
        var e :| e in rest;
        r := r + [e];
        rest := rest - {e};
      }
    }

    function GetResultsElection(electionId: string): seq<Entry>
      reads this
    {
      ElectionEntries(chain, electionId)
    }
  }
}
