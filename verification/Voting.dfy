/** The voting state of one node, as a value: the proposal table is a map from
    (height, hash, round), the exit poll is a set. `ConsensusService` refines it. */
module Voting {
  import opened Common

  /** A block with the hashes of the transactions it was executed with. */
  datatype Executed = Executed(block: Block, txs: seq<Hash>)

  datatype Key = Key(height: nat, hash: Hash, round: nat)

  datatype Proposal = Proposal(block: Option<Executed>, confirmations: seq<Confirmation>)

  /** Messages put on the channel to the node. The first two carry a vote. */
  datatype Message =
    | PropagateConfirmation(confirmation: Confirmation)
    | PropagateBlock(block: Block, confirmation: Confirmation, txs: seq<Hash>)
    | StartConsolidation(block: Block, confirmations: seq<Confirmation>, txs: seq<Hash>)
  {
    predicate IsVote() { PropagateConfirmation? || PropagateBlock? }
  }

  datatype Event =
    | BlockElectionFailed(heightToBuild: nat, newRound: nat)
    | BlockConfirmationFromPeer(confirmation: Confirmation)
    | BlockConsolidated(block: Block, players: seq<PlayerId>)
    | BlockExecutionEnded(executed: Executed)
    | BlockFromPeer(block: Block, confirmation: Confirmation)
    | CheckOldBlockProposals
    | ProposalAfterBuild(built: Executed, round: nat)
    | ProposalFromAlignmentBlock(confirmations: seq<Confirmation>)
    | VerifyConfirmations(retrieved: Option<Executed>, confirmations: seq<Confirmation>)

  /** What a step takes from outside the state: the signatures the key pair returns and,
      for a failed election, the proposal that sorting by count brings to the front. */
  datatype Oracle = Oracle(vote: Signature, block: Signature, first: Option<Key>)

  datatype State = State(
    me: PlayerId,
    players: seq<PlayerId>,
    height: nat,
    lastHash: Hash,
    round: nat,
    table: map<Key, Proposal>,
    polls: set<(nat, nat)>,
    consolidating: Option<nat>,
    sent: seq<Message>)

  function KeyOf(c: Confirmation): Key {
    Key(c.height, c.hash, c.round)
  }

  /** A block stored under a key has the key's hash and height. */
  ghost predicate BlockFits(k: Key, block: Option<Executed>) {
    block.Some? ==> block.value.block.hash == k.hash && block.value.block.height == k.height
  }

  function Slot(c: Confirmation): (nat, nat) {
    (c.height, c.round)
  }

  /** Appends the confirmations that are not yet stored, in order. */
  function AddAll(stored: seq<Confirmation>, batch: seq<Confirmation>): seq<Confirmation>
    decreases |batch|
  {
    if batch == [] then stored
    else AddAll(if batch[0] in stored then stored else stored + [batch[0]], batch[1..])
  }

  function UpdateTable(table: map<Key, Proposal>, batch: seq<Confirmation>, block: Option<Executed>): map<Key, Proposal>
    requires batch != []
  {
    var k := KeyOf(batch[0]);
    if k in table then
      table[k := Proposal(if table[k].block.None? then block else table[k].block,
                          AddAll(table[k].confirmations, batch))]
    else
      table[k := Proposal(block, batch)]
  }

  function Update(s: State, batch: seq<Confirmation>, block: Option<Executed>): State
    requires batch != []
  {
    s.(table := UpdateTable(s.table, batch, block))
  }

  predicate IsPlayer(s: State) {
    s.me in s.players
  }

  predicate ShouldVote(s: State, block: Block, round: nat) {
    && IsPlayer(s)
    && (block.height, round) !in s.polls
    && block.builder.Some? && block.builder.value in s.players
    && round == s.round
    && block.height == s.height + 1
    && block.prevHash == s.lastHash
  }

  function Ballot(s: State, block: Block, round: nat, sig: Signature): Confirmation {
    Confirmation(block.hash, block.height, round, s.me, sig)
  }

  /** Records the vote in the exit poll and announces it. */
  function Vote(s: State, block: Block, round: nat, sig: Signature): State {
    s.(polls := s.polls + {(block.height, round)},
       sent := s.sent + [PropagateConfirmation(Ballot(s, block, round, sig))])
  }

  predicate Reached(s: State, k: Key)
    requires k in s.table
  {
    var p := s.table[k];
    && k.height == s.height + 1
    && p.block.Some?
    && (forall c :: c in p.confirmations ==> c.player in s.players)
    && |p.confirmations| >= |s.players| / 2 + 1
  }

  /** Starts consolidating the proposal under `k` if its quorum is reached. */
  function TryConsolidate(s: State, k: Key): State
    requires k in s.table
  {
    if Reached(s, k) then
      var p := s.table[k];
      s.(consolidating := Some(k.height),
         sent := s.sent + [StartConsolidation(p.block.value.block, p.confirmations, p.block.value.txs)])
    else s
  }

  function TryUnlessConsolidating(s: State, k: Key): State
    requires k in s.table
  {
    if s.consolidating.None? then TryConsolidate(s, k) else s
  }

  /** `first` is a most confirmed proposal at this height and round, if there is any. */
  ghost predicate FirstInRound(table: map<Key, Proposal>, height: nat, round: nat, first: Option<Key>) {
    match first
    case None => forall k :: k in table ==> !(k.height == height && k.round == round)
    case Some(f) =>
      && f in table && f.height == height && f.round == round
      && forall k :: k in table && k.height == height && k.round == round ==>
                       |table[k].confirmations| <= |table[f].confirmations|
  }

  function ElectionFailed(s: State, height: nat, round: nat, o: Oracle): State
    requires o.first.Some? ==> o.first.value in s.table
  {
    if s.consolidating == Some(height) then s
    else
      var s1 := s.(round := round);
      if o.first.None? || s.table[o.first.value].block.None? then s1
      else
        var executed := s.table[o.first.value].block.value;
        var s2 := if ShouldVote(s1, executed.block, round)
                  then Update(Vote(s1, executed.block, round, o.vote),
                              [Ballot(s1, executed.block, round, o.vote)], Some(executed))
                  else s1;
        var k := Key(height, executed.block.hash, round);
        if k in s2.table then TryConsolidate(s2, k) else s2
  }

  function ConfirmationFromPeer(s: State, c: Confirmation): State {
    if (c.round >= s.round || c.height > s.height) && c.signature.verifies then
      TryUnlessConsolidating(Update(s, [c], None), KeyOf(c))
    else s
  }

  /** Moves to the consolidated block's height. A player keeps the polls up to that height. */
  function Consolidated(s: State, block: Block, players: seq<PlayerId>): State {
    s.(players := players,
       round := 0,
       height := block.height,
       lastHash := block.hash,
       polls := if s.me in players then (set q | q in s.polls && q.0 <= block.height) else s.polls,
       table := map k | k in s.table && k.height > block.height :: s.table[k],
       consolidating := None)
  }

  function ExecutionKey(s: State, e: Executed): Key {
    Key(e.block.height, e.block.hash, s.round)
  }

  function ExecutionEnded(s: State, e: Executed, o: Oracle): State
    requires ExecutionKey(s, e) in s.table && s.table[ExecutionKey(s, e)].confirmations != []
  {
    var k := ExecutionKey(s, e);
    var received := s.table[k].confirmations;
    var s1 := if ShouldVote(s, e.block, s.round)
              then Update(Vote(s, e.block, s.round, o.vote), received + [Ballot(s, e.block, s.round, o.vote)], Some(e))
              else Update(s, received, Some(e));
    if k in s1.table then TryUnlessConsolidating(s1, k) else s1
  }

  function FromPeer(s: State, block: Block, c: Confirmation): State {
    if s.consolidating != Some(block.height) && block.signature.verifies
       && c.round >= s.round && block.height > s.height
    then Update(s, [c], None)
    else s
  }

  /** Forgets proposals for the next height whose round has passed. */
  function CheckOld(s: State): State {
    if s.consolidating.None?
    then s.(table := map k | k in s.table && !(k.height == s.height + 1 && k.round < s.round) :: s.table[k])
    else s
  }

  /** Votes for and proposes a locally built block, unless the slot is already used. */
  function AfterBuild(s: State, built: Executed, round: nat, o: Oracle): State {
    if (built.block.height, round) in s.polls then s
    else
      var signed := built.block.(signature := o.block);
      var c := Ballot(s, signed, round, o.vote);
      var s1 := Update(s, [c], Some(Executed(signed, built.txs)));
      var s2 := if |s.players| == 1 then TryConsolidate(s1, KeyOf(c)) else s1;
      s2.(polls := s.polls + {(signed.height, round)},
          sent := s2.sent + [PropagateBlock(signed, c, built.txs)])
  }

  function FromAlignment(s: State, batch: seq<Confirmation>): State
    requires batch != []
  {
    Update(s.(round := batch[0].round), batch, None)
  }

  function VerifyBatch(s: State, retrieved: Option<Executed>, batch: seq<Confirmation>): State
    requires batch != []
  {
    if (exists c :: c in batch && (c.player !in s.players || !c.signature.verifies))
       || batch[0].height != s.height + 1 || batch[0].round < s.round
    then s
    else
      var s1 := Update(s, batch, retrieved);
      if retrieved.Some? then s1 else TryUnlessConsolidating(s1, KeyOf(batch[0]))
  }

  /** A step the service takes without panicking: batches are not empty, and an executed block
      finds its proposal in the current round. */
  ghost predicate Enabled(s: State, e: Event, o: Oracle) {
    match e
    case BlockElectionFailed(h, r) => FirstInRound(s.table, h, r, o.first)
    case BlockExecutionEnded(x) => ExecutionKey(s, x) in s.table && s.table[ExecutionKey(s, x)].confirmations != []
    case ProposalFromAlignmentBlock(batch) => batch != []
    case VerifyConfirmations(_, batch) => batch != []
    case _ => true
  }

  ghost function Handle(s: State, e: Event, o: Oracle): State
    requires Enabled(s, e, o)
  {
    match e
    case BlockElectionFailed(h, r) => ElectionFailed(s, h, r, o)
    case BlockConfirmationFromPeer(c) => ConfirmationFromPeer(s, c)
    case BlockConsolidated(b, players) => Consolidated(s, b, players)
    case BlockExecutionEnded(x) => ExecutionEnded(s, x, o)
    case BlockFromPeer(b, c) => FromPeer(s, b, c)
    case CheckOldBlockProposals => CheckOld(s)
    case ProposalAfterBuild(x, r) => AfterBuild(s, x, r, o)
    case ProposalFromAlignmentBlock(batch) => FromAlignment(s, batch)
    case VerifyConfirmations(x, batch) => VerifyBatch(s, x, batch)
  }

  function Initial(me: PlayerId, players: seq<PlayerId>, height: nat, lastHash: Hash): State {
    State(me, players, height, lastHash, 0, map[], {}, None, [])
  }
}
