# Vote ledger and election store

A Dafny model of the core of `system-votation-api`, an HTTP service that
keeps elections and their votes in an in-memory, hash-linked chain of
blocks. The model covers:

- **blocks** (`Blocks`, `block.dfy`): a block's fields and its hash. The
  hash is SHA-256 over the bincode serialisation of
  `(index, timestamp, voter_id, election_id, vote_option_id, previous_hash)`,
  written as lowercase hex. The bincode layout (`Bincode`, `bincode.dfy`)
  and the UTF-8 encoding of strings (`Utf8`, `utf8.dfy`) are modelled byte
  for byte. SHA-256 itself is a parameter: any function from bytes to
  32-byte digests.
- **the store** (`Ledger`, `blockchain.dfy`): the `Blockchain` class. Its
  state is the chain, the voters of each election, the options of each
  election and the elections of each creator. It has the constructor,
  `create_election`, `add_vote_operation` and the four queries. The class
  invariant `Valid()` (`StoreInvariant`) says:
  - the chain starts with the genesis block and is linked by index and
    previous hash;
  - every stored hash is the recomputed hash;
  - `voters` is exactly the index of the vote blocks;
  - each voter has at most one vote per election;
  - every vote names an existing election and one of its options;
  - every creator's elections exist.
- **the handlers** (`Votation`, `votation.dfy`): what the election
  endpoints compute from the store. This covers the 20-option cap, the
  `user_vote` shown in listings and in the single-election view, the
  per-option results tally and the results object built from it.

Two facts follow from the invariant:

1. **Tally.** In a consistent store, once anyone has voted in an election
   whose id is not "", its results list every option with the number of
   distinct voters who chose it. With no votes they hold only
   `election_id`.
2. **Own vote.** Asking for one's own vote shows exactly the option one
   cast, unless both the voter id and the election id are "".

Without the invariant the tally loop can drop votes. `TallyLosesVotesOnUnknownOption`
shows this on a two-entry example.

Identity comes from the bearer token. It is a parameter, `Some(id)`, or
`None` when the token cannot be read. The clock reading that `Block::new`
takes is also a parameter.

## Model

| member | source | states |
|---|---|---|
| Utf8.DecodeEncode | src/blockchain/block.rs:40-41 | decoding the UTF-8 bytes of any string gives the string back |
| Utf8.EncodeInjective | src/blockchain/block.rs:40-41 | distinct strings have distinct UTF-8 bytes |
| Bincode.FromLittleEndianInverse | src/blockchain/block.rs:40-41 | a fixed-width little-endian integer reads back as the same number when it fits the width |
| Bincode.SerializeStr | src/blockchain/block.rs:40-41 | a string is written as an 8-byte length prefix followed by its UTF-8 bytes |
| Bincode.ReadStrSerialized | src/blockchain/block.rs:40-41 | reading a serialised string gives the string back, followed by whatever came after it |
| Bincode.ReadFieldSerialized | src/blockchain/block.rs:40-41 | a u64, a u128 or a string field reads back by its kind, whatever follows it |
| Bincode.ReadTupleSerialized | src/blockchain/block.rs:40-41 | a concatenation of serialised fields reads back as the same fields in the same order, whatever follows |
| Bincode.DeserializeSerialize | src/blockchain/block.rs:40-41 | decoding the serialised 6-tuple gives the tuple back, field order included |
| Bincode.SerializeInjective | src/blockchain/block.rs:40-41 | distinct hashed tuples serialise to distinct byte sequences |
| Blocks.HexDigit | src/blockchain/block.rs:44 | each nibble is written as a lowercase hex digit |
| Blocks.LowerHex | src/blockchain/block.rs:44 | the digest is rendered as two lowercase hex digits per byte |
| Blocks.HexDigitValue | src/blockchain/block.rs:44 | a character has a hex value exactly when it is a lowercase hex digit, and the value renders back to that character |
| Blocks.ParseLowerHexInverse | src/blockchain/block.rs:44 | the hex string parses back to the digest bytes |
| Blocks.LowerHexInjective | src/blockchain/block.rs:44 | distinct digests give distinct hash strings |
| Blocks.CalculateHash | src/blockchain/block.rs:39-45 | the hash string has 64 characters, all lowercase hex digits |
| Blocks.NewBlock | src/blockchain/block.rs:17-30 | the block stores the five ids and the timestamp as passed; its hash is the hash recomputed from those fields; the hash has 64 characters |
| Blocks.HashBindsFields | src/blockchain/block.rs:39-45 | unless the digest collides on the two blocks' serialisations, two blocks with consistent and equal hashes are the same block |
| Ledger.HashesMatchAt | src/blockchain/blockchain.rs:65-74 | in a consistently hashed chain, every block's stored hash is its recomputed hash |
| Ledger.LastVote | src/blockchain/blockchain.rs:80-86 | `get_votes_by_user` returns the pair of a block with both ids and no later such block, and returns none exactly when no block has both ids |
| Ledger.UserVotes | src/blockchain/blockchain.rs:88-96 | `get_elections_by_user` returns at most one pair per block |
| Ledger.ElectionEntries | src/blockchain/blockchain.rs:106-113 | `get_results_election` returns at most one pair per block, each naming the requested election |
| Ledger.UserVotesMembers | src/blockchain/blockchain.rs:88-96 | a pair is in a voter's list exactly when some block of that voter carries it |
| Ledger.ElectionEntriesMembers | src/blockchain/blockchain.rs:106-113 | a pair is in an election's results exactly when some block of that election carries it |
| Ledger.UserVotesAppend | src/blockchain/blockchain.rs:88-96 | pushing a block extends a voter's list by that block's pair alone, in chain order |
| Ledger.ElectionEntriesAppend | src/blockchain/blockchain.rs:106-113 | pushing a block extends an election's results by that block's pair alone, in chain order |
| Ledger.VotedElectionsAppend | src/blockchain/blockchain.rs:74-75 | pushing a vote block adds its election, and only it, to the elections that have votes |
| Ledger.VotersInAppend | src/blockchain/blockchain.rs:74-75 | pushing a vote block adds its voter, and only it, to the voters of its election |
| Ledger.LinkedAppend | src/blockchain/blockchain.rs:65-74 | a block with index last.index + 1 and previous hash last.hash keeps the chain linked |
| Ledger.HashesMatchAppend | src/blockchain/blockchain.rs:66-74 | pushing a block with a consistent hash keeps every hash consistent |
| Ledger.IndexesVotesAppend | src/blockchain/blockchain.rs:57-75 | adding the voter to the election's set keeps `voters` exactly the index of the vote blocks |
| Ledger.OneVoteEachAppend | src/blockchain/blockchain.rs:57-60 | a voter who is not yet recorded for the election does not create a second vote |
| Ledger.VotesAreValidAppend | src/blockchain/blockchain.rs:49-55 | a vote for an existing election and one of its options keeps every vote valid |
| Ledger.AppendVotePreserves | src/blockchain/blockchain.rs:49-77 | a vote block that passes the three checks keeps the whole store invariant |
| Ledger.AddElectionPreserves | src/blockchain/blockchain.rs:29-46 | registering a new election for a creator keeps the whole store invariant |
| Ledger.ChainPrefix | src/blockchain/blockchain.rs:65-74 | dropping the tip leaves a linked, consistently hashed chain whose tip is the block the old tip pointed to |
| Ledger.NoCollisionsPrefix | src/blockchain/blockchain.rs:65-74 | the absence of collisions between two chains' blocks carries over to their prefixes |
| Ledger.SameTip | src/blockchain/blockchain.rs:65-74 | unless the digest collides on blocks of the two chains, two such chains with equal tip hashes have the same length and the same tip |
| Ledger.TipHashDeterminesChain | src/blockchain/blockchain.rs:65-74 | unless the digest collides on blocks of the two chains, the tip's hash determines the whole chain |
| Ledger.NotGenesis | src/blockchain/blockchain.rs:23 | a block that matches a pair other than ("", "") is not the genesis block |
| Ledger.RecordedIffCast | src/blockchain/blockchain.rs:57-60 | for any pair of ids other than ("", ""), a voter is recorded for an election exactly when `get_votes_by_user` finds a block of theirs for it |
| Ledger.RecordedVoteIsTheVote | src/blockchain/blockchain.rs:80-86 | in a consistent store, for any pair of ids other than ("", ""), the vote found is the voter's only vote in that election, and its option belongs to the election |
| Ledger.UserEntriesValid | src/blockchain/blockchain.rs:88-96 | in a consistent store, every pair in a voter's list (voter id not "") names an existing election and one of its options |
| Ledger.ResultEntriesValid | src/blockchain/blockchain.rs:106-113 | in a consistent store, every pair in the results of an election other than "" is one of its options |
| Ledger.GenesisMatchesEmptyIds | src/blockchain/blockchain.rs:23-24 | the queries match the genesis block for the empty ids, giving the pair ("", "") |
| Ledger.SeedThenInsert | src/blockchain/blockchain.rs:61-63 | creating the election's empty voter set when absent and then inserting the voter adds the voter to the election's set |
| Ledger.Blockchain.constructor | src/blockchain/blockchain.rs:14-27 | the chain is exactly the genesis block (index 0, empty ids, previous hash "0") and all three maps are empty; the invariant holds |
| Ledger.Blockchain.CreateElection | src/blockchain/blockchain.rs:29-46 | an existing election id gives "Election already exists" with nothing changed; otherwise the options are stored and the election is added to the creator's set, created if absent; chain and voters never change; the invariant is kept |
| Ledger.Blockchain.AddVoteOperation | src/blockchain/blockchain.rs:48-78 | checks in order: unknown election, option not in the election, voter already recorded; any failure changes nothing; a vote passing all three checks succeeds; success pushes one block linked to the tip and records the voter; elections and creators never change; the invariant is kept |
| Ledger.Blockchain.RecordVote | src/blockchain/blockchain.rs:61-77 | once the checks have passed, pushes the block with index last.index + 1, previous hash last.hash and the three ids, and adds the voter to the election's set, created if absent; the invariant is kept |
| Ledger.Blockchain.GetElectionsCreatedByUser | src/blockchain/blockchain.rs:98-104 | returns each of the creator's elections exactly once, and nothing for an unknown creator |
| Votation.HandlePostCreateElection | src/controllers/votation.rs:56-77 | no identity gives Unauthorized; more than 20 options give "Cannot create more than 20 vote options" before the store is touched; otherwise the store's outcome becomes Ok or BadRequest with its message; the 20-option bound over all elections is kept |
| Votation.HandlePostVote | src/controllers/votation.rs:79-96 | no identity gives Unauthorized; each store error gives BadRequest with its message and changes nothing; an identified caller whose vote passes the three checks gets Ok; success pushes one block for the caller with the given pair and records the caller as a voter |
| Votation.ShownVote | src/controllers/votation.rs:128-132 | the recorded option is shown exactly when it is one of the election's options |
| Votation.ElectionViews | src/controllers/votation.rs:120-138 | at most one view per listed pair |
| Votation.ElectionViewsSound | src/controllers/votation.rs:120-138 | every view is of a known election, shows its options, and comes from a listed pair whose option it shows only if valid; pairs of unknown elections give no view |
| Votation.ElectionViewsOfValidEntries | src/controllers/votation.rs:120-138 | when every pair is valid, no pair is skipped and each view shows its pair's option |
| Votation.HandleGetAllElections | src/controllers/votation.rs:98-142 | no identity gives Unauthorized; otherwise the loop yields the views of the caller's pairs, in chain order |
| Votation.AllElectionsShowEveryVote | src/controllers/votation.rs:120-138 | in a consistent store the caller's list has one view per vote cast, in chain order, each showing the chosen option |
| Votation.HandleGetElectionsCreatedByUser | src/controllers/votation.rs:144-187 | no identity gives Unauthorized; otherwise there is one view without a vote for each of the caller's elections that exists, none twice, and nothing else |
| Votation.CreatedElectionsAreKnown | src/controllers/votation.rs:165-182 | in a consistent store every created election exists, so none is skipped |
| Votation.HandleGetElection | src/controllers/votation.rs:190-247 | lists the error cases in source order (missing election_id, unknown election, voter_id present without identity); an existing election gives Ok when voter_id is absent or the caller is identified; on success shows the election's options, and a vote exactly when voter_id is present and the caller's recorded option is one of the options |
| Votation.GetElectionShowsOwnVote | src/controllers/votation.rs:217-236 | in a consistent store, a voter who has not voted sees no vote, and one who has sees exactly the option they chose |
| Votation.CountOption | src/controllers/votation.rs:268-299 | an option is counted at most once per pair |
| Votation.TallyVotes | src/controllers/votation.rs:268-290 | the loop's votes map equals the fold of `TallyStep` over the results pairs, including the reset of every option when a new key appears |
| Votation.BuildResults | src/controllers/votation.rs:292-299 | the response object holds election_id and then one count per key of the votes map, later writes winning |
| Votation.HandleGetResultsElection | src/controllers/votation.rs:249-306 | a missing election_id gives BadRequest; otherwise the body is a one-element list holding the results object of the tally |
| Votation.TallyFirstVote | src/controllers/votation.rs:277-288 | the first valid vote seeds every option of the election and counts itself |
| Votation.TallyNextVote | src/controllers/votation.rs:277-288 | a later valid vote finds its option seeded, resets nothing and extends only its own list |
| Votation.TallyOfValidEntries | src/controllers/votation.rs:268-290 | when every pair is a valid vote of one election, the tally maps every option to one element per vote for it, and to nothing when there are no votes |
| Votation.TallyLosesVotesOnUnknownOption | src/controllers/votation.rs:277-281 | a pair whose option is not one of the election's options resets the options already counted, so that a counted vote is lost |
| Votation.CountOptionAppend | src/controllers/votation.rs:270-290 | one more pair adds one to its option's count and nothing to the others |
| Votation.BallotsAppend | src/blockchain/blockchain.rs:74 | pushing a vote block adds its voter to the ballots of its election and option only |
| Votation.NewBallot | src/blockchain/blockchain.rs:57-60 | a voter's block is their only one in its election, so it adds a voter not yet counted |
| Votation.CountIsBallots | src/controllers/votation.rs:268-299 | with one vote per voter and election, and a first block not of the election, an option's count in the election's results is the number of distinct voters who chose it |
| Votation.ResultsOfConsistentStore | src/controllers/votation.rs:268-299 | in a consistent store, for any election but "": with no votes only election_id is shown; otherwise every option is shown with its number of voters, 0 for options nobody chose |
| Votation.CountsOfExpectedTally | src/controllers/votation.rs:292-299 | the results object of a seeded tally shows each option's count |

## Left out

- The `Mutex` around the store is not modelled. Each operation is one sequential, atomic method call, as it is under the lock.
- The clock read (`current_timestamp`) is not modelled. The timestamp is a parameter of the constructor, of `AddVoteOperation` and of `HandlePostVote`.
- SHA-256's internals are not modelled. The digest is any function from bytes to 32 bytes. No such function is injective, so the commitment lemmas assume only that the digest does not collide on the serialisations of the blocks they compare.
- JWT decoding (`extract_user_id_from_token`) is not modelled. Identity is `Some(id)` or `None`. The two texts of the Unauthorized response are not distinguished.
- HTTP routing, JSON building and `println!` logging are not modelled. A response is a status and its body value. Internally, `vote_options` is a set; the source renders it as a JSON array in hash-set order, which the model does not fix.
- The order of the creator's elections is not modelled. `GetElectionsCreatedByUser` returns them in an unspecified order, as the source's hash-set iteration does.
- The user, database, routing and start-up code is not part of this model.
- Determinism of `calculate_hash` has no lemma of its own, because Dafny functions are deterministic by construction. Equal tuples give equal hashes.
- Ledger.Blockchain.AddVoteOperation requires fewer than 2^64 blocks, because `last_block.index + 1` would overflow the u64 index. The source does not guard this case.
- Ledger.Blockchain.RecordVote and Votation.HandlePostVote carry the same requirement of fewer than 2^64 blocks, for the same reason.
- Ledger.TipHashDeterminesChain and Blocks.HashBindsFields assume every hashed string fits the u64 length prefix (`AllEncodable`). Strings are not otherwise bounded.
- Ledger.SameTip, Bincode.DeserializeSerialize and Bincode.SerializeInjective carry the same assumption that every hashed string fits the u64 length prefix (`Encodable`).
- Ledger.RecordedIffCast and Ledger.RecordedVoteIsTheVote are proved only for pairs of ids other than ("", ""), because the genesis block matches that pair without being a recorded vote.
- Votation.CountIsBallots requires that the chain's first block does not belong to the election, which the genesis block meets for every election id but "".
- Votation.ResultsOfConsistentStore is proved only for election ids other than "". For "", the genesis block's pair ("", "") is also counted; `Ledger.GenesisMatchesEmptyIds` states this.
- Votation.AllElectionsShowEveryVote is proved only for voter ids other than "", because for "" the genesis pair ("", "") is listed too.
- Votation.GetElectionShowsOwnVote is proved only when the voter id or the election id is not "", because the pair ("", "") finds the genesis block.
- `ElectionView` does not tell a `user_vote` of `null` from a missing `user_vote` key. The created-elections listing has no such key; the model shows `None` there.
