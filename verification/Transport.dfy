/** Outcome statuses from best to worst, and the worst of several. */
module Statuses {
  datatype Status = Passed | Skipped | Cancelled | Incomplete | Failed | Error

  function Priority(s: Status): nat {
    match s
    case Passed => 0
    case Skipped => 1
    case Cancelled => 2
    case Incomplete => 3
    case Failed => 4
    case Error => 5
  }

  function Worst(statuses: seq<Status>): Status
    requires statuses != []
    decreases |statuses|
  {
    var last := statuses[|statuses| - 1];
    if |statuses| == 1 then last
    else
      var worst := Worst(statuses[..|statuses| - 1]);
      if Priority(last) > Priority(worst) then last else worst
  }

  function Collapsed(s: Status): Status {
    if s == Cancelled then Incomplete else s
  }

  lemma {:induction false} WorstIsAmongThem(statuses: seq<Status>)
    requires statuses != []
    ensures Worst(statuses) in statuses && forall s :: s in statuses ==> Priority(s) <= Priority(Worst(statuses))
    decreases |statuses|
  {
    var n := |statuses| - 1;
    assert statuses == statuses[..n] + [statuses[n]];
    if n > 0 {
      WorstIsAmongThem(statuses[..n]);
    }
  }

  /** The severest status present, from error down to passed. */
  lemma SeverestWins(statuses: seq<Status>)
    requires statuses != []
    ensures Worst(statuses) ==
              if Error in statuses then Error
              else if Failed in statuses then Failed
              else if Incomplete in statuses then Incomplete
              else if Cancelled in statuses then Cancelled
              else if Skipped in statuses then Skipped
              else Passed
    ensures Collapsed(Worst(statuses)) == Incomplete <==>
              Error !in statuses && Failed !in statuses && (Incomplete in statuses || Cancelled in statuses)
  {
    WorstIsAmongThem(statuses);
    forall s | s in statuses ensures Priority(s) <= Priority(Worst(statuses)) {
    }
  }

  /** The aggregate is passed exactly when all are. */
  lemma PassedMeansAllPassed(statuses: seq<Status>)
    requires statuses != []
    ensures Collapsed(Worst(statuses)) == Passed <==> forall s :: s in statuses ==> s == Passed
  {
    WorstIsAmongThem(statuses);
    PriorityIsInjective();
  }

  lemma PriorityIsInjective()
    ensures forall s :: Priority(s) == 0 ==> s == Passed
  {
  }
}

/** The cross-document rules of a transport qualification. */
module Transport {
  import opened Outcomes
  import opened Sequences
  import opened Statuses

  datatype Endpoint = Endpoint(domain: string, trace: string, span: string, message: string)

  datatype Hop = Hop(channel: string, status: Status, producer: Endpoint, consumer: Endpoint, isParent: bool)

  datatype Contract = Contract(channel: string, source: string, destination: string)

  datatype ClockRelation = ClockRelation(id: string, source: string, destination: string, status: Status)

  datatype ChannelObservation = ChannelObservation(channel: string, status: Status)

  datatype ChainContract = ChainContract(id: string, sha256: string)

  datatype Chain = Chain(
    id: string, contractSha256: string, channels: seq<string>, hops: seq<Hop>, status: Status,
    traces: seq<string>, root: string)

  datatype Verdict = Verdict(status: Status, chains: nat, passed: nat, failed: nat, incomplete: nat, errors: nat)

  datatype Document = Document(
    evidenceDomains: seq<string>, contracts: seq<Contract>, relations: seq<ClockRelation>,
    observations: seq<ChannelObservation>, chains: seq<Chain>, chainContracts: seq<ChainContract>, verdict: Verdict)

  // ---- What the sections refer to ------------------------------------------------------

  function ContractIds(d: Document): seq<string> {
    seq(|d.contracts|, i requires 0 <= i < |d.contracts| => d.contracts[i].channel)
  }

  function Sources(d: Document): seq<string> {
    seq(|d.contracts|, i requires 0 <= i < |d.contracts| => d.contracts[i].source)
  }

  function Destinations(d: Document): seq<string> {
    seq(|d.contracts|, i requires 0 <= i < |d.contracts| => d.contracts[i].destination)
  }

  function Domains(d: Document): set<string> {
    Elements(Sources(d)) + Elements(Destinations(d))
  }

  function ContractPairs(d: Document): seq<(string, string)> {
    seq(|d.contracts|, i requires 0 <= i < |d.contracts| => (d.contracts[i].source, d.contracts[i].destination))
  }

  function RelationPairs(d: Document): seq<(string, string)> {
    seq(|d.relations|, i requires 0 <= i < |d.relations| => (d.relations[i].source, d.relations[i].destination))
  }

  function RelationIds(d: Document): seq<string> {
    seq(|d.relations|, i requires 0 <= i < |d.relations| => d.relations[i].id)
  }

  function ObservedIds(d: Document): seq<string> {
    seq(|d.observations|, i requires 0 <= i < |d.observations| => d.observations[i].channel)
  }

  function ChainIds(d: Document): seq<string> {
    seq(|d.chains|, i requires 0 <= i < |d.chains| => d.chains[i].id)
  }

  function ChainContractIds(d: Document): seq<string> {
    seq(|d.chainContracts|, i requires 0 <= i < |d.chainContracts| => d.chainContracts[i].id)
  }

  function HopIds(c: Chain): seq<string> {
    seq(|c.hops|, i requires 0 <= i < |c.hops| => c.hops[i].channel)
  }

  /** A channel contract by its ID; of several, any one. */
  predicate Contracted(d: Document, channel: string, source: string, destination: string) {
    Contract(channel, source, destination) in d.contracts
  }

  // ---- The rules --------------------------------------------------------------------------

  predicate SectionsAgree(d: Document) {
    && Distinct(d.evidenceDomains) && Elements(d.evidenceDomains) == Domains(d)
    && Distinct(ContractIds(d)) && (forall c :: c in d.contracts ==> c.source != c.destination)
    && Distinct(RelationIds(d)) && Distinct(RelationPairs(d)) && Elements(RelationPairs(d)) <= Elements(ContractPairs(d))
    && Distinct(ObservedIds(d)) && Elements(ObservedIds(d)) == Elements(ContractIds(d))
    && Distinct(ChainIds(d)) && Distinct(ChainContractIds(d)) && Elements(ChainIds(d)) == Elements(ChainContractIds(d))
  }

  /** Consecutive channels of a chain meet in a domain. */
  predicate IsPath(d: Document, channels: seq<string>) {
    forall i :: 0 <= i < |channels| - 1 ==>
      forall a, b :: a in d.contracts && b in d.contracts && a.channel == channels[i] && b.channel == channels[i + 1] ==>
        a.destination == b.source
  }

  function Transition(h: Hop): ((string, string), (string, string)) {
    ((h.producer.trace, h.producer.span), (h.consumer.trace, h.consumer.span))
  }

  function Transitions(c: Chain): seq<((string, string), (string, string))> {
    seq(|c.hops|, i requires 0 <= i < |c.hops| => Transition(c.hops[i]))
  }

  predicate HopHolds(d: Document, h: Hop) {
    && Contracted(d, h.channel, h.producer.domain, h.consumer.domain)
    && h.producer.domain != h.consumer.domain
    && Transition(h).0 != Transition(h).1
    && h.producer.message == h.consumer.message
    && (h.isParent ==> h.producer.trace == h.consumer.trace)
  }

  function HopTraces(c: Chain): set<string> {
    set h | h in c.hops :: h.producer.trace
  }

  function ConsumerTraces(c: Chain): set<string> {
    set h | h in c.hops :: h.consumer.trace
  }

  /** What a passed chain has to show on top of every other chain. */
  predicate PassedChainHolds(d: Document, c: Chain) {
    && HopIds(c) == c.channels
    && (forall h :: h in c.hops ==> h.status == Passed && HopHolds(d, h))
    && c.root in c.traces && HopTraces(c) + ConsumerTraces(c) == Elements(c.traces)
    && Distinct(Transitions(c))
  }

  predicate ChainHolds(d: Document, c: Chain) {
    && Elements(c.channels) <= Elements(ContractIds(d))
    && ChainContract(c.id, c.contractSha256) in d.chainContracts
    && IsPath(d, c.channels)
    && Elements(HopIds(c)) <= Elements(ContractIds(d)) && Distinct(HopIds(c))
    && (c.status == Passed ==> PassedChainHolds(d, c))
  }

  function ChannelsOf(chains: seq<Chain>): set<string> {
    set c, x | c in chains && x in c.channels :: x
  }

  function CountOf(chains: seq<Chain>, s: Status): nat
    decreases |chains|
  {
    if chains == [] then 0
    else CountOf(chains[..|chains| - 1], s) + (if chains[|chains| - 1].status == s then 1 else 0)
  }

  function RelationStatuses(d: Document): seq<Status> {
    seq(|d.relations|, i requires 0 <= i < |d.relations| => d.relations[i].status)
  }

  function ObservationStatuses(d: Document): seq<Status> {
    seq(|d.observations|, i requires 0 <= i < |d.observations| => d.observations[i].status)
  }

  function StatusesOf(chains: seq<Chain>): seq<Status> {
    seq(|chains|, i requires 0 <= i < |chains| => chains[i].status)
  }

  function ChainStatuses(d: Document): seq<Status> {
    StatusesOf(d.chains)
  }

  function AllStatuses(d: Document): seq<Status> {
    [Passed] + (if Elements(RelationPairs(d)) != Elements(ContractPairs(d)) then [Incomplete] else [])
    + RelationStatuses(d) + ObservationStatuses(d) + ChainStatuses(d)
  }

  predicate VerdictHolds(d: Document) {
    && d.verdict.chains == |d.chains|
    && d.verdict.passed == CountOf(d.chains, Passed) && d.verdict.failed == CountOf(d.chains, Failed)
    && d.verdict.incomplete == CountOf(d.chains, Incomplete) && d.verdict.errors == CountOf(d.chains, Error)
    && d.verdict.status == Collapsed(Worst(AllStatuses(d)))
  }

  predicate IsValid(d: Document) {
    && SectionsAgree(d) && (forall c :: c in d.chains ==> ChainHolds(d, c))
    && ChannelsOf(d.chains) == Elements(ContractIds(d)) && VerdictHolds(d)
  }

  // ---- The checks in the order of the code ---------------------------------------------------

  datatype Failure = Sections | UnknownChannels | ContractMismatch | BrokenPath | UnknownHops | RepeatedHop
    | HopOrder | HopFailed | RootTrace | TraceIds | HopDomains | RepeatedTransition | SameSpan | MessageId | ParentTrace
    | Uncovered | WrongVerdict

  /** The hops of a chain that claims to have passed, with the transitions seen so far. */
  method ValidateHops(d: Document, c: Chain) returns (failure: Option<Failure>)
    requires Elements(HopIds(c)) <= Elements(ContractIds(d))
    ensures failure.None? <==> (forall h :: h in c.hops ==> HopHolds(d, h)) && Distinct(Transitions(c))
  {
    hide Contracted;
    var seen: set<((string, string), (string, string))> := {};
    for i := 0 to |c.hops|
      invariant forall t :: t in seen <==> exists j :: 0 <= j < i && Transitions(c)[j] == t
      invariant forall j :: 0 <= j < i ==> HopHolds(d, c.hops[j])
      invariant forall j, k :: 0 <= j < k < i ==> Transitions(c)[j] != Transitions(c)[k]
    {
      var h := c.hops[i];
      assert h in c.hops && Transitions(c)[i] == Transition(h);
      if h.producer.domain == h.consumer.domain || !Contracted(d, h.channel, h.producer.domain, h.consumer.domain) {
        return Some(HopDomains);
      }
      if Transition(h) in seen {
        return Some(RepeatedTransition);
      }
      seen := seen + {Transition(h)};
      if Transition(h).0 == Transition(h).1 {
        return Some(SameSpan);
      }
      if h.producer.message != h.consumer.message {
        return Some(MessageId);
      }
      if h.isParent && h.producer.trace != h.consumer.trace {
        return Some(ParentTrace);
      }
    }
    return None;
  }

  method ValidateChain(d: Document, c: Chain) returns (failure: Option<Failure>)
    ensures failure.None? <==> ChainHolds(d, c)
  {
    hide IsPath, HopHolds;
    if !(Elements(c.channels) <= Elements(ContractIds(d))) {
      return Some(UnknownChannels);
    }
    if ChainContract(c.id, c.contractSha256) !in d.chainContracts {
      return Some(ContractMismatch);
    }
    if !IsPath(d, c.channels) {
      return Some(BrokenPath);
    }
    if !(Elements(HopIds(c)) <= Elements(ContractIds(d))) {
      return Some(UnknownHops);
    }
    if !Distinct(HopIds(c)) {
      return Some(RepeatedHop);
    }
    if c.status != Passed {
      return None;
    }
    if HopIds(c) != c.channels {
      return Some(HopOrder);
    }
    if exists h :: h in c.hops && h.status != Passed {
      return Some(HopFailed);
    }
    if c.root !in c.traces {
      return Some(RootTrace);
    }
    if HopTraces(c) + ConsumerTraces(c) != Elements(c.traces) {
      return Some(TraceIds);
    }
    failure := ValidateHops(d, c);
  }

  method Validate(d: Document) returns (failure: Option<Failure>)
    ensures failure.None? <==> IsValid(d)
  {
    hide SectionsAgree, ChainHolds, VerdictHolds, ContractIds;
    if !SectionsAgree(d) {
      return Some(Sections);
    }
    var covered: set<string> := {};
    for i := 0 to |d.chains|
      invariant forall j :: 0 <= j < i ==> ChainHolds(d, d.chains[j])
      invariant covered == ChannelsOf(d.chains[..i])
    {
      failure := ValidateChain(d, d.chains[i]);
      if failure.Some? {
        assert d.chains[i] in d.chains;
        return;
      }
      covered := covered + Elements(d.chains[i].channels);
      ChannelsExtend(d.chains, i);
    }
    assert d.chains[..|d.chains|] == d.chains;
    if covered != Elements(ContractIds(d)) {
      return Some(Uncovered);
    }
    if !VerdictHolds(d) {
      return Some(WrongVerdict);
    }
    return None;
  }

  lemma ChannelsExtend(chains: seq<Chain>, i: nat)
    requires i < |chains|
    ensures ChannelsOf(chains[..i + 1]) == ChannelsOf(chains[..i]) + Elements(chains[i].channels)
  {
    var c := chains[i];
    assert chains[..i + 1] == chains[..i] + [c];
    assert forall x :: x in chains[..i + 1] <==> x in chains[..i] || x == c;
  }

  // ---- What a passed verdict means ---------------------------------------------------------------

  /** Every section of the document passed, and nothing that was expected is missing. */
  predicate EverythingPassed(d: Document) {
    && (forall c :: c in d.contracts ==>
          exists r :: r in d.relations && r.source == c.source && r.destination == c.destination && r.status == Passed)
    && (forall r :: r in d.relations ==> r.status == Passed)
    && (forall c :: c in d.contracts ==> ChannelObservation(c.channel, Passed) in d.observations)
    && (forall o :: o in d.observations ==> o.status == Passed)
    && (forall k :: k in d.chainContracts ==> exists c :: c in d.chains && c.id == k.id && c.status == Passed)
    && (forall c :: c in d.chains ==> c.status == Passed)
  }

  /** The hops of a chain follow the data from domain to domain. */
  predicate IsConnected(c: Chain) {
    forall i :: 0 <= i < |c.hops| - 1 ==> c.hops[i].consumer.domain == c.hops[i + 1].producer.domain
  }

  lemma StatusesPassed(d: Document)
    requires forall s :: s in AllStatuses(d) ==> s == Passed
    ensures Elements(RelationPairs(d)) == Elements(ContractPairs(d))
    ensures forall r :: r in d.relations ==> r.status == Passed
    ensures forall o :: o in d.observations ==> o.status == Passed
    ensures forall c :: c in d.chains ==> c.status == Passed
  {
    var gap := if Elements(RelationPairs(d)) != Elements(ContractPairs(d)) then [Incomplete] else [];
    var all := AllStatuses(d);
    assert forall s :: s in gap ==> s in all;
    assert Incomplete !in all;
    forall r | r in d.relations ensures r.status == Passed {
      var i :| 0 <= i < |d.relations| && d.relations[i] == r;
      assert RelationStatuses(d)[i] in RelationStatuses(d) && RelationStatuses(d)[i] in all;
    }
    forall o | o in d.observations ensures o.status == Passed {
      var i :| 0 <= i < |d.observations| && d.observations[i] == o;
      assert ObservationStatuses(d)[i] in ObservationStatuses(d) && ObservationStatuses(d)[i] in all;
    }
    forall c | c in d.chains ensures c.status == Passed {
      var i :| 0 <= i < |d.chains| && d.chains[i] == c;
      assert ChainStatuses(d)[i] in ChainStatuses(d) && ChainStatuses(d)[i] in all;
    }
  }

  lemma NothingIsMissing(d: Document)
    requires SectionsAgree(d) && forall s :: s in AllStatuses(d) ==> s == Passed
    ensures EverythingPassed(d)
  {
    StatusesPassed(d);
    hide AllStatuses;
    forall c | c in d.contracts
      ensures exists r :: r in d.relations && r.source == c.source && r.destination == c.destination && r.status == Passed
    {
      var i :| 0 <= i < |d.contracts| && d.contracts[i] == c;
      assert ContractPairs(d)[i] in ContractPairs(d);
      assert (c.source, c.destination) in Elements(RelationPairs(d));
      var j :| 0 <= j < |d.relations| && RelationPairs(d)[j] == (c.source, c.destination);
      assert d.relations[j] in d.relations;
    }
    forall c | c in d.contracts ensures ChannelObservation(c.channel, Passed) in d.observations {
      var i :| 0 <= i < |d.contracts| && d.contracts[i] == c;
      assert ContractIds(d)[i] in ContractIds(d);
      assert c.channel in Elements(ObservedIds(d));
      var j :| 0 <= j < |d.observations| && ObservedIds(d)[j] == c.channel;
      assert d.observations[j] in d.observations;
    }
    forall k | k in d.chainContracts ensures exists c :: c in d.chains && c.id == k.id && c.status == Passed {
      var i :| 0 <= i < |d.chainContracts| && d.chainContracts[i] == k;
      assert ChainContractIds(d)[i] in ChainContractIds(d);
      assert k.id in Elements(ChainIds(d));
      var j :| 0 <= j < |d.chains| && ChainIds(d)[j] == k.id;
      assert d.chains[j] in d.chains;
    }
  }

  lemma PassedChainIsConnected(d: Document, c: Chain)
    requires ChainHolds(d, c) && c.status == Passed
    ensures IsConnected(c)
  {
    forall i | 0 <= i < |c.hops| - 1 ensures c.hops[i].consumer.domain == c.hops[i + 1].producer.domain {
      var a, b := c.hops[i], c.hops[i + 1];
      assert a in c.hops && b in c.hops;
      assert HopIds(c)[i] == c.channels[i] && HopIds(c)[i + 1] == c.channels[i + 1];
      var x, y := Contract(a.channel, a.producer.domain, a.consumer.domain), Contract(b.channel, b.producer.domain, b.consumer.domain);
      assert x in d.contracts && y in d.contracts;
      assert x.destination == y.source;
    }
  }

  lemma {:induction false} OnlyPassedChains(chains: seq<Chain>, s: Status)
    requires forall c :: c in chains ==> c.status == Passed
    ensures CountOf(chains, s) == if s == Passed then |chains| else 0
    decreases |chains|
  {
    if chains != [] {
      assert chains[|chains| - 1] in chains;
      OnlyPassedChains(chains[..|chains| - 1], s);
    }
  }

  /**
   An accepted document with a passed verdict: nothing expected is missing or
   failed, the chains cover all channels, and each chain's hops are exactly its
   channels in order, each in the direction of its contract, and form a path.
   */
  lemma PassedVerdictIsEarned(d: Document)
    requires IsValid(d) && d.verdict.status == Passed
    ensures EverythingPassed(d) && ChannelsOf(d.chains) == Elements(ContractIds(d))
    ensures forall c :: c in d.chains ==> HopIds(c) == c.channels && PassedChainHolds(d, c) && IsConnected(c)
    ensures d.verdict.passed == |d.chains| && d.verdict.failed == d.verdict.incomplete == d.verdict.errors == 0
  {
    hide SectionsAgree, ChainHolds, Elements, ChannelsOf, EverythingPassed, IsConnected, AllStatuses;
    assert AllStatuses(d) != [] by {
      StatusesExist(d);
    }
    PassedMeansAllPassed(AllStatuses(d));
    NothingIsMissing(d);
    StatusesPassed(d);
    OnlyPassedChains(d.chains, Passed);
    OnlyPassedChains(d.chains, Failed);
    OnlyPassedChains(d.chains, Incomplete);
    OnlyPassedChains(d.chains, Error);
    forall c | c in d.chains ensures PassedChainHolds(d, c) && IsConnected(c) {
      PassedChainIsConnected(d, c);
      PassedIsChecked(d, c);
    }
  }

  lemma PassedIsChecked(d: Document, c: Chain)
    requires ChainHolds(d, c) && c.status == Passed
    ensures PassedChainHolds(d, c)
  {
  }

  lemma StatusesExist(d: Document)
    ensures AllStatuses(d) != [] && Passed in AllStatuses(d)
  {
    assert AllStatuses(d)[0] == Passed;
  }

  lemma NoGap(d: Document)
    requires SectionsAgree(d) && EverythingPassed(d)
    ensures Elements(RelationPairs(d)) == Elements(ContractPairs(d))
  {
    forall p | p in Elements(ContractPairs(d)) ensures p in Elements(RelationPairs(d)) {
      var i :| 0 <= i < |d.contracts| && ContractPairs(d)[i] == p;
      assert d.contracts[i] in d.contracts;
      var r :| r in d.relations && r.source == p.0 && r.destination == p.1;
      var j :| 0 <= j < |d.relations| && d.relations[j] == r;
      assert RelationPairs(d)[j] in RelationPairs(d);
    }
  }

  // ---- The sections, entry by entry ------------------------------------------------------------

  /** The domains are listed once each, and are those the contracts lead between. */
  ghost predicate DomainsMatch(d: Document) {
    && (forall i, j :: 0 <= i < j < |d.evidenceDomains| ==> d.evidenceDomains[i] != d.evidenceDomains[j])
    && forall x :: x in d.evidenceDomains <==> exists c :: c in d.contracts && (c.source == x || c.destination == x)
  }

  /** Channels are contracted once, between different domains. */
  ghost predicate ContractsMatch(d: Document) {
    && (forall i, j :: 0 <= i < j < |d.contracts| ==> d.contracts[i].channel != d.contracts[j].channel)
    && forall c :: c in d.contracts ==> c.source != c.destination
  }

  predicate SamePair(r: ClockRelation, s: ClockRelation) {
    r.source == s.source && r.destination == s.destination
  }

  /** Clock relations have IDs and pairs of their own, and each pair is that of a contract. */
  ghost predicate RelationsMatch(d: Document) {
    && (forall i, j :: 0 <= i < j < |d.relations| ==> d.relations[i].id != d.relations[j].id)
    && (forall i, j :: 0 <= i < j < |d.relations| ==> !SamePair(d.relations[i], d.relations[j]))
    && forall r :: r in d.relations ==> exists c :: c in d.contracts && c.source == r.source && c.destination == r.destination
  }

  /** Each contracted channel is observed once, and no other is. */
  ghost predicate ObservationsMatch(d: Document) {
    && (forall i, j :: 0 <= i < j < |d.observations| ==> d.observations[i].channel != d.observations[j].channel)
    && (forall o :: o in d.observations ==> exists c :: c in d.contracts && c.channel == o.channel)
    && forall c :: c in d.contracts ==> exists o :: o in d.observations && o.channel == c.channel
  }

  /** Each contracted chain is reported once, and no other is. */
  ghost predicate ChainsMatch(d: Document) {
    && (forall i, j :: 0 <= i < j < |d.chains| ==> d.chains[i].id != d.chains[j].id)
    && (forall i, j :: 0 <= i < j < |d.chainContracts| ==> d.chainContracts[i].id != d.chainContracts[j].id)
    && (forall c :: c in d.chains ==> exists k :: k in d.chainContracts && k.id == c.id)
    && forall k :: k in d.chainContracts ==> exists c :: c in d.chains && c.id == k.id
  }

  lemma ContractsDistinct(d: Document)
    ensures Distinct(ContractIds(d)) <==> forall i, j :: 0 <= i < j < |d.contracts| ==> d.contracts[i].channel != d.contracts[j].channel
  {
    if Distinct(ContractIds(d)) {
      forall i, j | 0 <= i < j < |d.contracts| ensures d.contracts[i].channel != d.contracts[j].channel {
        assert ContractIds(d)[i] != ContractIds(d)[j];
      }
    }
  }

  lemma ObservationsDistinct(d: Document)
    ensures Distinct(ObservedIds(d)) <==> forall i, j :: 0 <= i < j < |d.observations| ==> d.observations[i].channel != d.observations[j].channel
  {
    if Distinct(ObservedIds(d)) {
      forall i, j | 0 <= i < j < |d.observations| ensures d.observations[i].channel != d.observations[j].channel {
        assert ObservedIds(d)[i] != ObservedIds(d)[j];
      }
    }
  }

  lemma ChainsDistinct(d: Document)
    ensures Distinct(ChainIds(d)) <==> forall i, j :: 0 <= i < j < |d.chains| ==> d.chains[i].id != d.chains[j].id
  {
    if Distinct(ChainIds(d)) {
      forall i, j | 0 <= i < j < |d.chains| ensures d.chains[i].id != d.chains[j].id {
        assert ChainIds(d)[i] != ChainIds(d)[j];
      }
    }
  }

  lemma ChainContractsDistinct(d: Document)
    ensures Distinct(ChainContractIds(d)) <==> forall i, j :: 0 <= i < j < |d.chainContracts| ==> d.chainContracts[i].id != d.chainContracts[j].id
  {
    if Distinct(ChainContractIds(d)) {
      forall i, j | 0 <= i < j < |d.chainContracts| ensures d.chainContracts[i].id != d.chainContracts[j].id {
        assert ChainContractIds(d)[i] != ChainContractIds(d)[j];
      }
    }
  }

  lemma RelationsDistinct(d: Document)
    ensures Distinct(RelationIds(d)) <==> forall i, j :: 0 <= i < j < |d.relations| ==> d.relations[i].id != d.relations[j].id
  {
    if Distinct(RelationIds(d)) {
      forall i, j | 0 <= i < j < |d.relations| ensures d.relations[i].id != d.relations[j].id {
        assert RelationIds(d)[i] != RelationIds(d)[j];
      }
    }
  }

  lemma PairsDistinct(d: Document)
    ensures Distinct(RelationPairs(d)) <==> forall i, j :: 0 <= i < j < |d.relations| ==> !SamePair(d.relations[i], d.relations[j])
  {
    if Distinct(RelationPairs(d)) {
      forall i, j | 0 <= i < j < |d.relations| ensures !SamePair(d.relations[i], d.relations[j]) {
        assert RelationPairs(d)[i] != RelationPairs(d)[j];
      }
    }
  }

  lemma ContractElements(d: Document)
    ensures forall x :: x in Elements(ContractIds(d)) <==> exists c :: c in d.contracts && c.channel == x
  {
    forall c | c in d.contracts ensures c.channel in ContractIds(d) {
      var i :| 0 <= i < |d.contracts| && d.contracts[i] == c;
      assert ContractIds(d)[i] == c.channel;
    }
  }

  lemma ObservedElements(d: Document)
    ensures forall x :: x in Elements(ObservedIds(d)) <==> exists o :: o in d.observations && o.channel == x
  {
    forall o | o in d.observations ensures o.channel in ObservedIds(d) {
      var i :| 0 <= i < |d.observations| && d.observations[i] == o;
      assert ObservedIds(d)[i] == o.channel;
    }
  }

  lemma ChainElements(d: Document)
    ensures forall x :: x in Elements(ChainIds(d)) <==> exists c :: c in d.chains && c.id == x
  {
    forall c | c in d.chains ensures c.id in ChainIds(d) {
      var i :| 0 <= i < |d.chains| && d.chains[i] == c;
      assert ChainIds(d)[i] == c.id;
    }
  }

  lemma ChainContractElements(d: Document)
    ensures forall x :: x in Elements(ChainContractIds(d)) <==> exists k :: k in d.chainContracts && k.id == x
  {
    forall k | k in d.chainContracts ensures k.id in ChainContractIds(d) {
      var i :| 0 <= i < |d.chainContracts| && d.chainContracts[i] == k;
      assert ChainContractIds(d)[i] == k.id;
    }
  }

  lemma ContractPairElements(d: Document)
    ensures forall x :: x in Elements(ContractPairs(d)) <==> exists c :: c in d.contracts && c.source == x.0 && c.destination == x.1
  {
    forall c | c in d.contracts ensures (c.source, c.destination) in ContractPairs(d) {
      var i :| 0 <= i < |d.contracts| && d.contracts[i] == c;
      assert ContractPairs(d)[i] == (c.source, c.destination);
    }
  }

  lemma RelationPairElements(d: Document)
    ensures forall x :: x in Elements(RelationPairs(d)) <==> exists r :: r in d.relations && r.source == x.0 && r.destination == x.1
  {
    forall r | r in d.relations ensures (r.source, r.destination) in RelationPairs(d) {
      var i :| 0 <= i < |d.relations| && d.relations[i] == r;
      assert RelationPairs(d)[i] == (r.source, r.destination);
    }
  }

  lemma SourceElements(d: Document)
    ensures forall x :: x in Elements(Sources(d)) <==> exists c :: c in d.contracts && c.source == x
  {
    forall c | c in d.contracts ensures c.source in Sources(d) {
      var i :| 0 <= i < |d.contracts| && d.contracts[i] == c;
      assert Sources(d)[i] == c.source;
    }
  }

  lemma DestinationElements(d: Document)
    ensures forall x :: x in Elements(Destinations(d)) <==> exists c :: c in d.contracts && c.destination == x
  {
    forall c | c in d.contracts ensures c.destination in Destinations(d) {
      var i :| 0 <= i < |d.contracts| && d.contracts[i] == c;
      assert Destinations(d)[i] == c.destination;
    }
  }

  lemma SameElements<T>(a: set<T>, b: set<T>)
    ensures a == b <==> forall x :: x in a <==> x in b
  {
  }

  lemma DomainsExactly(d: Document)
    ensures Distinct(d.evidenceDomains) && Elements(d.evidenceDomains) == Domains(d) <==> DomainsMatch(d)
  {
    SourceElements(d);
    DestinationElements(d);
    SameElements(Elements(d.evidenceDomains), Domains(d));
    hide Sources, Destinations;
    assert forall x :: x in Domains(d) <==> x in Elements(Sources(d)) || x in Elements(Destinations(d));
    assert forall x :: x in Elements(d.evidenceDomains) <==> x in d.evidenceDomains;
  }

  lemma RelationsExactly(d: Document)
    ensures Distinct(RelationIds(d)) && Distinct(RelationPairs(d)) && Elements(RelationPairs(d)) <= Elements(ContractPairs(d))
       <==> RelationsMatch(d)
  {
    RelationsDistinct(d);
    PairsDistinct(d);
    RelationPairElements(d);
    ContractPairElements(d);
    hide RelationIds, RelationPairs, ContractPairs, Distinct, Elements, SamePair;
    if Elements(RelationPairs(d)) <= Elements(ContractPairs(d)) {
      forall r | r in d.relations ensures exists c :: c in d.contracts && c.source == r.source && c.destination == r.destination {
        assert (r.source, r.destination) in Elements(RelationPairs(d));
      }
    }
  }

  lemma ObservationsExactly(d: Document)
    ensures Distinct(ObservedIds(d)) && Elements(ObservedIds(d)) == Elements(ContractIds(d)) <==> ObservationsMatch(d)
  {
    ObservationsDistinct(d);
    ObservedElements(d);
    ContractElements(d);
    SameElements(Elements(ObservedIds(d)), Elements(ContractIds(d)));
    hide ObservedIds, ContractIds, Distinct, Elements;
    if Elements(ObservedIds(d)) == Elements(ContractIds(d)) {
      forall o | o in d.observations ensures exists c :: c in d.contracts && c.channel == o.channel {
        assert o.channel in Elements(ObservedIds(d));
      }
      forall c | c in d.contracts ensures exists o :: o in d.observations && o.channel == c.channel {
        assert c.channel in Elements(ContractIds(d));
      }
    }
  }

  lemma ChainsExactly(d: Document)
    ensures Distinct(ChainIds(d)) && Distinct(ChainContractIds(d)) && Elements(ChainIds(d)) == Elements(ChainContractIds(d)) <==> ChainsMatch(d)
  {
    ChainsDistinct(d);
    ChainContractsDistinct(d);
    ChainElements(d);
    ChainContractElements(d);
    SameElements(Elements(ChainIds(d)), Elements(ChainContractIds(d)));
    hide ChainIds, ChainContractIds, Distinct, Elements;
    if Elements(ChainIds(d)) == Elements(ChainContractIds(d)) {
      forall c | c in d.chains ensures exists k :: k in d.chainContracts && k.id == c.id {
        assert c.id in Elements(ChainIds(d));
      }
      forall k | k in d.chainContracts ensures exists c :: c in d.chains && c.id == k.id {
        assert k.id in Elements(ChainContractIds(d));
      }
    }
  }

  /** The rule on the sections, which compares lists of IDs and pairs, says that their entries match. */
  lemma SectionsAgreeExactly(d: Document)
    ensures SectionsAgree(d) <==> SectionsMatch(d)
  {
    DomainsExactly(d);
    ContractsDistinct(d);
    RelationsExactly(d);
    ObservationsExactly(d);
    ChainsExactly(d);
    hide Distinct, Elements, Domains, ContractIds, ObservedIds, ChainIds, ChainContractIds, RelationIds, RelationPairs, ContractPairs,
      DomainsMatch, RelationsMatch, ObservationsMatch, ChainsMatch;
  }

  /** The hop follows its contract, from one domain to another, and hands the message on in a span of its own. */
  ghost predicate FollowsContract(d: Document, h: Hop) {
    && Contract(h.channel, h.producer.domain, h.consumer.domain) in d.contracts && h.producer.domain != h.consumer.domain
    && h.producer.message == h.consumer.message
    && (h.producer.trace, h.producer.span) != (h.consumer.trace, h.consumer.span)
    && (h.isParent ==> h.producer.trace == h.consumer.trace)
  }

  predicate SameTransition(g: Hop, h: Hop) {
    && g.producer.trace == h.producer.trace && g.producer.span == h.producer.span
    && g.consumer.trace == h.consumer.trace && g.consumer.span == h.consumer.span
  }

  /** Under its own contract, over contracted channels that meet in a domain, with hops on different contracted channels. */
  ghost predicate ChainMatches(d: Document, c: Chain) {
    && (exists k :: k in d.chainContracts && k.id == c.id && k.sha256 == c.contractSha256)
    && (forall x :: x in c.channels ==> exists k :: k in d.contracts && k.channel == x)
    && (forall i :: 0 <= i < |c.channels| - 1 ==>
          forall a, b :: a in d.contracts && b in d.contracts && a.channel == c.channels[i] && b.channel == c.channels[i + 1] ==>
            a.destination == b.source)
    && (forall h :: h in c.hops ==> exists k :: k in d.contracts && k.channel == h.channel)
    && (forall i, j :: 0 <= i < j < |c.hops| ==> c.hops[i].channel != c.hops[j].channel)
  }

  /** A passed chain has one passed hop for each channel, and all its traces are those of its hops. */
  ghost predicate PassedChainMatches(d: Document, c: Chain) {
    && |c.hops| == |c.channels| && (forall i :: 0 <= i < |c.hops| ==> c.hops[i].channel == c.channels[i])
    && (forall h :: h in c.hops ==> h.status == Passed && FollowsContract(d, h))
    && c.root in c.traces
    && (forall x :: x in c.traces <==> exists h :: h in c.hops && (h.producer.trace == x || h.consumer.trace == x))
    && (forall i, j :: 0 <= i < j < |c.hops| ==> !SameTransition(c.hops[i], c.hops[j]))
  }

  lemma HopsDistinct(c: Chain)
    ensures Distinct(HopIds(c)) <==> forall i, j :: 0 <= i < j < |c.hops| ==> c.hops[i].channel != c.hops[j].channel
  {
    if Distinct(HopIds(c)) {
      forall i, j | 0 <= i < j < |c.hops| ensures c.hops[i].channel != c.hops[j].channel {
        assert HopIds(c)[i] != HopIds(c)[j];
      }
    }
  }

  lemma HopElements(c: Chain)
    ensures forall x :: x in Elements(HopIds(c)) <==> exists h :: h in c.hops && h.channel == x
  {
    forall h | h in c.hops ensures h.channel in HopIds(c) {
      var i :| 0 <= i < |c.hops| && c.hops[i] == h;
      assert HopIds(c)[i] == h.channel;
    }
  }

  lemma TransitionsDistinct(c: Chain)
    ensures Distinct(Transitions(c)) <==> forall i, j :: 0 <= i < j < |c.hops| ==> !SameTransition(c.hops[i], c.hops[j])
  {
    if Distinct(Transitions(c)) {
      forall i, j | 0 <= i < j < |c.hops| ensures !SameTransition(c.hops[i], c.hops[j]) {
        assert Transitions(c)[i] != Transitions(c)[j];
      }
    }
  }

  lemma HopHoldsExactly(d: Document, h: Hop)
    ensures HopHolds(d, h) <==> FollowsContract(d, h)
  {
  }

  lemma PassedChainHoldsExactly(d: Document, c: Chain)
    ensures PassedChainHolds(d, c) <==> PassedChainMatches(d, c)
  {
    TransitionsDistinct(c);
    forall h ensures HopHolds(d, h) <==> FollowsContract(d, h) {
      HopHoldsExactly(d, h);
    }
    HopsInOrder(c);
    TracesExactly(c);
    hide HopHolds, FollowsContract, Transitions, SameTransition, Distinct, HopIds, HopTraces, ConsumerTraces, Elements;
  }

  lemma HopsInOrder(c: Chain)
    ensures HopIds(c) == c.channels <==> |c.hops| == |c.channels| && forall i :: 0 <= i < |c.hops| ==> c.hops[i].channel == c.channels[i]
  {
    if HopIds(c) == c.channels {
      forall i | 0 <= i < |c.hops| ensures c.hops[i].channel == c.channels[i] {
        assert HopIds(c)[i] == c.channels[i];
      }
    }
  }

  lemma TracesExactly(c: Chain)
    ensures HopTraces(c) + ConsumerTraces(c) == Elements(c.traces) <==>
              forall x :: x in c.traces <==> exists h :: h in c.hops && (h.producer.trace == x || h.consumer.trace == x)
  {
    SameElements(HopTraces(c) + ConsumerTraces(c), Elements(c.traces));
    assert forall x :: x in HopTraces(c) + ConsumerTraces(c) <==> exists h :: h in c.hops && (h.producer.trace == x || h.consumer.trace == x);
    assert forall x :: x in Elements(c.traces) <==> x in c.traces;
  }

  lemma ContractedChannels(d: Document, channels: seq<string>)
    ensures Elements(channels) <= Elements(ContractIds(d)) <==> forall x :: x in channels ==> exists k :: k in d.contracts && k.channel == x
  {
    ContractElements(d);
    hide ContractIds;
    if Elements(channels) <= Elements(ContractIds(d)) {
      forall x | x in channels ensures exists k :: k in d.contracts && k.channel == x {
        assert x in Elements(channels);
      }
    }
    if forall x :: x in channels ==> exists k :: k in d.contracts && k.channel == x {
      forall x | x in Elements(channels) ensures x in Elements(ContractIds(d)) {
        assert x in channels;
      }
    }
  }

  lemma ContractedHops(d: Document, c: Chain)
    ensures Elements(HopIds(c)) <= Elements(ContractIds(d)) <==> forall h :: h in c.hops ==> exists k :: k in d.contracts && k.channel == h.channel
  {
    ContractElements(d);
    HopElements(c);
    hide ContractIds, HopIds, Elements;
    if Elements(HopIds(c)) <= Elements(ContractIds(d)) {
      forall h | h in c.hops ensures exists k :: k in d.contracts && k.channel == h.channel {
        assert h.channel in Elements(HopIds(c));
      }
    }
  }

  /** The rule on a chain, entry by entry. */
  lemma ChainHoldsExactly(d: Document, c: Chain)
    ensures ChainHolds(d, c) <==> ChainMatches(d, c) && (c.status == Passed ==> PassedChainMatches(d, c))
  {
    ContractedChannels(d, c.channels);
    ContractedHops(d, c);
    HopsDistinct(c);
    PassedChainHoldsExactly(d, c);
    hide Elements, ContractIds, HopIds, Distinct, PassedChainHolds, PassedChainMatches;
    assert ChainContract(c.id, c.contractSha256) in d.chainContracts <==>
           exists k :: k in d.chainContracts && k.id == c.id && k.sha256 == c.contractSha256;
  }

  /** What each hop of a chain in such a document shows. */
  lemma PassedHopsFollowContracts(d: Document, c: Chain, i: nat)
    requires IsValid(d) && d.verdict.status == Passed && c in d.chains && i < |c.hops|
    ensures var h := c.hops[i];
            && |c.hops| == |c.channels| && h.channel == c.channels[i] && h.status == Passed && FollowsContract(d, h)
            && h.producer.trace in c.traces && h.consumer.trace in c.traces && c.root in c.traces
            && forall j :: i < j < |c.hops| ==> !SameTransition(h, c.hops[j])
  {
    hide IsValid, EverythingPassed, IsConnected, PassedChainHolds, FollowsContract, SameTransition;
    PassedVerdictIsEarned(d);
    HopsOfPassedChain(d, c, i);
  }

  lemma HopsOfPassedChain(d: Document, c: Chain, i: nat)
    requires PassedChainHolds(d, c) && i < |c.hops|
    ensures var h := c.hops[i];
            && |c.hops| == |c.channels| && h.channel == c.channels[i] && h.status == Passed && FollowsContract(d, h)
            && h.producer.trace in c.traces && h.consumer.trace in c.traces && c.root in c.traces
            && forall j :: i < j < |c.hops| ==> !SameTransition(h, c.hops[j])
  {
    var h := c.hops[i];
    assert h in c.hops && HopIds(c)[i] == h.channel;
    assert h.producer.trace in Elements(c.traces) && h.consumer.trace in Elements(c.traces);
    forall j | i < j < |c.hops| ensures !SameTransition(h, c.hops[j]) {
      assert Transitions(c)[i] != Transitions(c)[j];
    }
  }

  /** A relation, an observation or a chain has the status. */
  predicate Occurs(d: Document, s: Status) {
    || (exists r :: r in d.relations && r.status == s)
    || (exists o :: o in d.observations && o.status == s)
    || (exists c :: c in d.chains && c.status == s)
  }

  lemma StatusesOccur(d: Document, s: Status)
    requires s != Passed
    ensures s in AllStatuses(d) <==>
              Occurs(d, s) || (s == Incomplete && Elements(RelationPairs(d)) != Elements(ContractPairs(d)))
  {
    hide Elements, RelationPairs, ContractPairs;
    assert s in RelationStatuses(d) <==> exists r :: r in d.relations && r.status == s by {
      if r :| r in d.relations && r.status == s {
        var i :| 0 <= i < |d.relations| && d.relations[i] == r;
        assert RelationStatuses(d)[i] == s;
      }
    }
    assert s in ObservationStatuses(d) <==> exists o :: o in d.observations && o.status == s by {
      if o :| o in d.observations && o.status == s {
        var i :| 0 <= i < |d.observations| && d.observations[i] == o;
        assert ObservationStatuses(d)[i] == s;
      }
    }
    assert s in ChainStatuses(d) <==> exists c :: c in d.chains && c.status == s by {
      if c :| c in d.chains && c.status == s {
        var i :| 0 <= i < |d.chains| && d.chains[i] == c;
        assert ChainStatuses(d)[i] == s;
      }
    }
  }

  /** A contract whose domains no clock relation relates. */
  ghost predicate LacksRelation(d: Document) {
    exists c :: c in d.contracts && forall r :: r in d.relations ==> r.source != c.source || r.destination != c.destination
  }

  /** The numbers of chains of each status, and the severest status of all parts; a missing clock relation makes it incomplete. */
  ghost predicate VerdictMatches(d: Document) {
    var statuses := multiset(StatusesOf(d.chains));
    && d.verdict.chains == |d.chains| && d.verdict.passed == statuses[Passed] && d.verdict.failed == statuses[Failed]
    && d.verdict.incomplete == statuses[Incomplete] && d.verdict.errors == statuses[Error]
    && d.verdict.status ==
         if Occurs(d, Error) then Error
         else if Occurs(d, Failed) then Failed
         else if Occurs(d, Incomplete) || Occurs(d, Cancelled) || LacksRelation(d) then Incomplete
         else if Occurs(d, Skipped) then Skipped
         else Passed
  }

  lemma GapExactly(d: Document)
    requires RelationsMatch(d)
    ensures Elements(RelationPairs(d)) != Elements(ContractPairs(d)) <==> LacksRelation(d)
  {
    RelationPairElements(d);
    ContractPairElements(d);
    SameElements(Elements(RelationPairs(d)), Elements(ContractPairs(d)));
    hide RelationPairs, ContractPairs, Elements, SamePair;
    if Elements(RelationPairs(d)) == Elements(ContractPairs(d)) {
      forall c | c in d.contracts ensures exists r :: r in d.relations && r.source == c.source && r.destination == c.destination {
        assert (c.source, c.destination) in Elements(ContractPairs(d));
      }
    }
  }

  lemma VerdictHoldsExactly(d: Document)
    requires RelationsMatch(d)
    ensures VerdictHolds(d) <==> VerdictMatches(d)
  {
    ChainsAreCounted(d.chains, Passed);
    ChainsAreCounted(d.chains, Failed);
    ChainsAreCounted(d.chains, Incomplete);
    ChainsAreCounted(d.chains, Error);
    StatusesExist(d);
    SeverestWins(AllStatuses(d));
    GapExactly(d);
    forall s | s in {Error, Failed, Incomplete, Cancelled, Skipped}
      ensures s in AllStatuses(d) <==>
                Occurs(d, s) || (s == Incomplete && Elements(RelationPairs(d)) != Elements(ContractPairs(d)))
    {
      StatusesOccur(d, s);
    }
    hide AllStatuses, Occurs, Elements, LacksRelation, RelationsMatch, StatusesOf, CountOf, RelationPairs, ContractPairs, Worst;
  }

  ghost predicate SectionsMatch(d: Document) {
    DomainsMatch(d) && ContractsMatch(d) && RelationsMatch(d) && ObservationsMatch(d) && ChainsMatch(d)
  }

  ghost predicate EveryChainMatches(d: Document) {
    forall c :: c in d.chains ==> ChainMatches(d, c) && (c.status == Passed ==> PassedChainMatches(d, c))
  }

  predicate EveryChannelIsCovered(d: Document) {
    forall k :: k in d.contracts ==> exists c :: c in d.chains && k.channel in c.channels
  }

  /** The whole document, entry by entry: what is accepted, and nothing else is. */
  lemma ValidExactly(d: Document)
    ensures IsValid(d) <==> SectionsMatch(d) && EveryChainMatches(d) && EveryChannelIsCovered(d) && VerdictMatches(d)
  {
    SectionsAgreeExactly(d);
    AllChainsExactly(d);
    assert SectionsMatch(d) ==> RelationsMatch(d);
    hide SectionsMatch, EveryChainMatches, EveryChannelIsCovered, VerdictHolds, VerdictMatches, SectionsAgree, RelationsMatch, ChainHolds,
      ChannelsOf, Elements, ContractIds;
    if RelationsMatch(d) {
      VerdictHoldsExactly(d);
    }
    if EveryChainMatches(d) {
      CoverageExactly(d);
    }
  }

  lemma AllChainsExactly(d: Document)
    ensures (forall c :: c in d.chains ==> ChainHolds(d, c)) <==> EveryChainMatches(d)
  {
    hide ChainHolds, ChainMatches, PassedChainMatches;
    forall c | c in d.chains ensures ChainHolds(d, c) <==> ChainMatches(d, c) && (c.status == Passed ==> PassedChainMatches(d, c)) {
      ChainHoldsExactly(d, c);
    }
  }

  lemma CoverageExactly(d: Document)
    requires EveryChainMatches(d)
    ensures ChannelsOf(d.chains) == Elements(ContractIds(d)) <==> EveryChannelIsCovered(d)
  {
    ContractElements(d);
    SameElements(ChannelsOf(d.chains), Elements(ContractIds(d)));
    hide ContractIds, Elements;
    forall x | x in ChannelsOf(d.chains) ensures x in Elements(ContractIds(d)) {
      var c :| c in d.chains && x in c.channels;
      assert ChainMatches(d, c);
    }
    if ChannelsOf(d.chains) == Elements(ContractIds(d)) {
      forall k | k in d.contracts ensures exists c :: c in d.chains && k.channel in c.channels {
        assert k.channel in ChannelsOf(d.chains);
      }
    }
  }

  lemma {:induction false} ChainsAreCounted(chains: seq<Chain>, s: Status)
    ensures CountOf(chains, s) == multiset(StatusesOf(chains))[s]
    decreases |chains|
  {
    if chains != [] {
      var rest, last := chains[..|chains| - 1], chains[|chains| - 1];
      ChainsAreCounted(rest, s);
      assert StatusesOf(chains) == StatusesOf(rest) + [last.status];
    }
  }

  /** Conversely, a document in which everything passed can carry no other verdict. */
  lemma PassedVerdictIsDue(d: Document)
    requires IsValid(d) && EverythingPassed(d)
    ensures d.verdict.status == Passed
  {
    NoGap(d);
    forall s | s in AllStatuses(d) ensures s == Passed {
      if s in RelationStatuses(d) {
        var i :| 0 <= i < |d.relations| && RelationStatuses(d)[i] == s;
        assert d.relations[i] in d.relations;
      } else if s in ObservationStatuses(d) {
        var i :| 0 <= i < |d.observations| && ObservationStatuses(d)[i] == s;
        assert d.observations[i] in d.observations;
      } else if s in ChainStatuses(d) {
        var i :| 0 <= i < |d.chains| && ChainStatuses(d)[i] == s;
        assert d.chains[i] in d.chains;
      }
    }
    hide AllStatuses, SectionsAgree, ChainHolds, EverythingPassed;
    StatusesExist(d);
    PassedMeansAllPassed(AllStatuses(d));
  }
}
