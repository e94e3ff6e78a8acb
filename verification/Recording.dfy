/** Sums over counters, whatever order they are summed in. */
module Counters {
  ghost function Total<K(!new)>(m: map<K, nat>): nat
    decreases |m|
  {
    if m == map[] then 0
    else
      var k :| k in m;
      m[k] + Total(m - {k})
  }

  lemma {:induction false} TotalWithout<K(!new)>(m: map<K, nat>, k: K)
    requires k in m
    ensures Total(m) == m[k] + Total(m - {k})
    decreases |m|
  {
    assert m != map[];
    var j :| j in m && Total(m) == m[j] + Total(m - {j});
    if j != k {
      TotalWithout(m - {j}, k);
      TotalWithout(m - {k}, j);
      assert m - {j} - {k} == m - {k} - {j};
    }
  }

  function Count<K(==)>(m: map<K, nat>, k: K): nat {
    if k in m then m[k] else 0
  }

  lemma TotalCounted<K(!new)>(m: map<K, nat>, k: K, more: nat)
    ensures Total(m[k := Count(m, k) + more]) == Total(m) + more
  {
    var later := m[k := Count(m, k) + more];
    TotalWithout(later, k);
    assert later - {k} == m - {k};
    if k in m {
      TotalWithout(m, k);
    } else {
      assert m - {k} == m;
    }
  }
}

/** What is observed of a recording, and what its records say, independently of each other. */
module RecordingModel {
  import opened Outcomes
  import opened Counters

  datatype Schema = Schema(id: nat, name: string, content: string)

  datatype Channel = Channel(id: nat, schemaId: nat, topic: string, encoding: string, metadata: string)

  datatype Record =
    | SchemaRecord(schema: Schema)
    | ChannelRecord(channel: Channel)
    | MessageRecord(channelId: nat, logTime: nat)
    | AttachmentRecord
    | MetadataRecord
    | DataEnd
    | OtherRecord

  datatype Facts = Facts(
    schemas: map<nat, Schema>, channels: map<nat, Channel>, messages: map<nat, nat>,
    attachments: nat, metadata: nat, start: Option<nat>, end: nat, inSummary: bool)

  datatype Failure =
    | SchemaIdZero | UnnamedSchema | UndefinedSchema | ConflictingDefinition | LateDefinition
    | MessageAfterDataEnd | UndefinedChannel | AuxiliaryAfterDataEnd | DuplicateDataEnd
    | NoDataEnd | StatisticsContradict | ChannelCountsContradict
    | ChecksumMismatch | NoSummary | NoStatistics

  const NOTHING := Facts(map[], map[], map[], 0, 0, None, 0, false)

  /** A repeated definition must agree; a new one must come before the end of the data. */
  function Define<R(==)>(definitions: map<nat, R>, id: nat, record: R, inSummary: bool): Result<map<nat, R>, Failure> {
    if id in definitions then (if definitions[id] == record then Ok(definitions) else Err(ConflictingDefinition))
    else if inSummary then Err(LateDefinition)
    else Ok(definitions[id := record])
  }

  function Least(a: Option<nat>, b: nat): nat {
    if a.None? || b < a.value then b else a.value
  }

  function Greatest(a: nat, b: nat): nat {
    if a < b then b else a
  }

  function Observe(o: Facts, r: Record): Result<Facts, Failure> {
    match r
    case DataEnd => if o.inSummary then Err(DuplicateDataEnd) else Ok(o.(inSummary := true))
    case SchemaRecord(schema) =>
      if schema.id == 0 then Err(SchemaIdZero)
      else
        var defined := Define(o.schemas, schema.id, schema, o.inSummary);
        if defined.Err? then Err(defined.error) else Ok(o.(schemas := defined.value))
    case ChannelRecord(channel) =>
      if channel.schemaId == 0 then Err(UnnamedSchema)
      else if channel.schemaId !in o.schemas then Err(UndefinedSchema)
      else
        var defined := Define(o.channels, channel.id, channel, o.inSummary);
        if defined.Err? then Err(defined.error) else Ok(o.(channels := defined.value))
    case MessageRecord(c, time) =>
      if o.inSummary then Err(MessageAfterDataEnd)
      else if c !in o.channels then Err(UndefinedChannel)
      else Ok(o.(messages := o.messages[c := Count(o.messages, c) + 1], start := Some(Least(o.start, time)), end := Greatest(o.end, time)))
    case AttachmentRecord => if o.inSummary then Err(AuxiliaryAfterDataEnd) else Ok(o.(attachments := o.attachments + 1))
    case MetadataRecord => if o.inSummary then Err(AuxiliaryAfterDataEnd) else Ok(o.(metadata := o.metadata + 1))
    case OtherRecord => Ok(o)
  }

  function ObserveAll(log: seq<Record>): Result<Facts, Failure>
    decreases |log|
  {
    if log == [] then Ok(NOTHING)
    else
      var before := ObserveAll(log[..|log| - 1]);
      if before.Err? then before else Observe(before.value, log[|log| - 1])
  }

  // ---- What the records say --------------------------------------------------------------

  /** How many messages are on the given channels. */
  function MessagesIn(log: seq<Record>, channels: set<nat>): nat
    decreases |log|
  {
    if log == [] then 0
    else
      var r := log[|log| - 1];
      MessagesIn(log[..|log| - 1], channels) + (if r.MessageRecord? && r.channelId in channels then 1 else 0)
  }

  function MessageCount(log: seq<Record>): nat
    decreases |log|
  {
    if log == [] then 0 else MessageCount(log[..|log| - 1]) + (if log[|log| - 1].MessageRecord? then 1 else 0)
  }

  /** The recording defines the channel with this topic and with a schema of this name. */
  ghost predicate Carries(log: seq<Record>, channelId: nat, topic: string, name: string) {
    exists channel: Channel, schema: Schema ::
      && ChannelRecord(channel) in log && SchemaRecord(schema) in log
      && channel.id == channelId && channel.topic == topic && channel.schemaId == schema.id && schema.name == name
  }

  /** How many of the records are messages on a topic with a type, by the definitions of the whole recording. */
  ghost function MessagesOn(records: seq<Record>, log: seq<Record>, topic: string, name: string): nat
    decreases |records|
  {
    if records == [] then 0
    else
      var r := records[|records| - 1];
      MessagesOn(records[..|records| - 1], log, topic, name) +
      (if r.MessageRecord? && Carries(log, r.channelId, topic, name) then 1 else 0)
  }

  /** Bounds that are reached by some message. */
  ghost predicate AreExtremes(log: seq<Record>, start: nat, end: nat) {
    && (forall r :: r in log && r.MessageRecord? ==> start <= r.logTime <= end)
    && (exists r :: r in log && r.MessageRecord? && r.logTime == start)
    && (exists r :: r in log && r.MessageRecord? && r.logTime == end)
  }

  // ---- The observations agree with the records -------------------------------------------------

  ghost predicate SchemasAgree(schemas: map<nat, Schema>, log: seq<Record>) {
    && (forall schema :: SchemaRecord(schema) in log ==> schema.id in schemas && schemas[schema.id] == schema)
    && (forall id :: id in schemas ==> schemas[id].id == id && SchemaRecord(schemas[id]) in log)
  }

  ghost predicate ChannelsAgree(channels: map<nat, Channel>, schemas: map<nat, Schema>, log: seq<Record>) {
    && (forall channel :: ChannelRecord(channel) in log ==> channel.id in channels && channels[channel.id] == channel)
    && (forall id :: id in channels ==>
          channels[id].id == id && ChannelRecord(channels[id]) in log && channels[id].schemaId in schemas)
  }

  ghost predicate DefinitionsAgree(o: Facts, log: seq<Record>) {
    SchemasAgree(o.schemas, log) && ChannelsAgree(o.channels, o.schemas, log)
  }

  ghost predicate MessagesAgree(o: Facts, log: seq<Record>) {
    && (forall c :: Count(o.messages, c) == MessagesIn(log, {c}))
    && (forall c :: c in o.messages ==> c in o.channels)
    && (forall r :: r in log && r.MessageRecord? ==> r.channelId in o.channels)
    && Total(o.messages) == MessageCount(log)
    && (MessageCount(log) == 0 <==> o.start.None?)
    && (o.start.Some? ==> AreExtremes(log, o.start.value, o.end))
    && (o.start.None? ==> o.end == 0 && forall r :: r in log ==> !r.MessageRecord?)
  }

  lemma MembersOfExtended(log: seq<Record>, x: Record)
    requires log != [] && x == log[|log| - 1]
    ensures forall r :: r in log <==> r in log[..|log| - 1] || r == x
  {
    assert log == log[..|log| - 1] + [x];
  }

  lemma SchemasExtended(o: Facts, log: seq<Record>, x: Record)
    requires SchemasAgree(o.schemas, log) && Observe(o, x).Ok?
    ensures SchemasAgree(Observe(o, x).value.schemas, log + [x])
  {
    hide Count, Least, Greatest;
    assert forall r :: r in log + [x] <==> r in log || r == x;
  }

  lemma ChannelsExtended(o: Facts, log: seq<Record>, x: Record)
    requires ChannelsAgree(o.channels, o.schemas, log) && Observe(o, x).Ok?
    ensures var t := Observe(o, x).value; ChannelsAgree(t.channels, t.schemas, log + [x])
  {
    hide Count, Least, Greatest;
    assert forall r :: r in log + [x] <==> r in log || r == x;
  }

  lemma {:induction false} DefinitionsAreObserved(log: seq<Record>)
    requires ObserveAll(log).Ok?
    ensures DefinitionsAgree(ObserveAll(log).value, log)
    decreases |log|
  {
    hide Observe;
    if log != [] {
      var earlier, x := log[..|log| - 1], log[|log| - 1];
      DefinitionsAreObserved(earlier);
      SchemasExtended(ObserveAll(earlier).value, earlier, x);
      ChannelsExtended(ObserveAll(earlier).value, earlier, x);
      assert log == earlier + [x];
    }
  }

  lemma ExtremesExtended(log: seq<Record>, start: Option<nat>, end: nat, x: Record)
    requires start.Some? ==> AreExtremes(log, start.value, end)
    requires start.None? ==> end == 0 && forall r :: r in log ==> !r.MessageRecord?
    requires x.MessageRecord?
    ensures AreExtremes(log + [x], Least(start, x.logTime), Greatest(end, x.logTime))
  {
    var later := log + [x];
    assert forall r :: r in later <==> r in log || r == x;
    assert x in later;
    if start.Some? {
      var first :| first in log && first.MessageRecord? && first.logTime == start.value;
      var last :| last in log && last.MessageRecord? && last.logTime == end;
      assert first in later && last in later;
    }
  }

  lemma CountsObserve(messages: map<nat, nat>, log: seq<Record>, x: Record)
    requires x.MessageRecord? && forall c :: Count(messages, c) == MessagesIn(log, {c})
    ensures forall c :: Count(messages[x.channelId := Count(messages, x.channelId) + 1], c) == MessagesIn(log + [x], {c})
    ensures MessageCount(log + [x]) == MessageCount(log) + 1
  {
    assert (log + [x])[..|log + [x]| - 1] == log;
  }

  lemma MessageIsObserved(o: Facts, log: seq<Record>, x: Record)
    requires MessagesAgree(o, log) && x.MessageRecord? && Observe(o, x).Ok?
    ensures MessagesAgree(Observe(o, x).value, log + [x])
  {
    hide AreExtremes, Total, MessagesIn, MessageCount, Count, Least, Greatest;
    TotalCounted(o.messages, x.channelId, 1);
    ExtremesExtended(log, o.start, o.end, x);
    CountsObserve(o.messages, log, x);
    assert forall r :: r in log + [x] <==> r in log || r == x;
  }

  lemma OthersAreNoMessages(o: Facts, log: seq<Record>, x: Record)
    requires MessagesAgree(o, log) && !x.MessageRecord? && Observe(o, x).Ok?
    ensures MessagesAgree(Observe(o, x).value, log + [x])
  {
    var later := log + [x];
    assert later[..|later| - 1] == log && later[|later| - 1] == x;
    assert forall r :: r in later <==> r in log || r == x;
  }

  lemma {:induction false} MessagesAreObserved(log: seq<Record>)
    requires ObserveAll(log).Ok?
    ensures MessagesAgree(ObserveAll(log).value, log)
    decreases |log|
  {
    if log == [] {
      assert Total<nat>(map[]) == 0;
    } else {
      var earlier, x := log[..|log| - 1], log[|log| - 1];
      MessagesAreObserved(earlier);
      var o := ObserveAll(earlier).value;
      assert log == earlier + [x];
      if x.MessageRecord? {
        MessageIsObserved(o, earlier, x);
      } else {
        OthersAreNoMessages(o, earlier, x);
      }
    }
  }

  // ---- Which logs are observed --------------------------------------------------------------

  /** The rest of what is observed: the other records that are counted, and whether the data have ended. */
  ghost predicate OthersAgree(o: Facts, log: seq<Record>) {
    && o.attachments == multiset(log)[AttachmentRecord] && o.metadata == multiset(log)[MetadataRecord]
    && (o.inSummary <==> DataEnd in log)
  }

  lemma {:induction false} OthersAreObserved(log: seq<Record>)
    requires ObserveAll(log).Ok?
    ensures OthersAgree(ObserveAll(log).value, log)
    decreases |log|
  {
    if log != [] {
      var earlier, x := log[..|log| - 1], log[|log| - 1];
      OthersAreObserved(earlier);
      assert log == earlier + [x];
      hide Observe, OthersAgree;
      OtherIsObserved(ObserveAll(earlier).value, earlier, x);
    } else {
      NothingElseYet();
    }
  }

  lemma NothingElseYet()
    ensures OthersAgree(NOTHING, [])
  {
  }

  lemma OtherIsObserved(o: Facts, log: seq<Record>, x: Record)
    requires OthersAgree(o, log) && Observe(o, x).Ok?
    ensures OthersAgree(Observe(o, x).value, log + [x])
  {
    hide Define, Count, Least, Greatest;
    assert multiset(log + [x]) == multiset(log) + multiset{x};
    assert DataEnd in log + [x] <==> DataEnd in log || x == DataEnd;
  }

  /** By the records before it, the record is in place. */
  ghost predicate IsInPlace(before: seq<Record>, r: Record) {
    match r
    case DataEnd => DataEnd !in before
    case SchemaRecord(schema) =>
      && schema.id != 0 && (DataEnd in before ==> r in before)
      && forall other :: SchemaRecord(other) in before && other.id == schema.id ==> other == schema
    case ChannelRecord(channel) =>
      && channel.schemaId != 0 && (DataEnd in before ==> r in before)
      && (exists schema :: SchemaRecord(schema) in before && schema.id == channel.schemaId)
      && forall other :: ChannelRecord(other) in before && other.id == channel.id ==> other == channel
    case MessageRecord(id, _) => DataEnd !in before && exists channel :: ChannelRecord(channel) in before && channel.id == id
    case AttachmentRecord => DataEnd !in before
    case MetadataRecord => DataEnd !in before
    case OtherRecord => true
  }

  lemma ObservedExactlyInPlace(o: Facts, log: seq<Record>, x: Record)
    requires DefinitionsAgree(o, log) && (o.inSummary <==> DataEnd in log)
    ensures Observe(o, x).Ok? <==> IsInPlace(log, x)
  {
    hide Count, Least, Greatest;
    match x
    case SchemaRecord(schema) =>
      if schema.id in o.schemas {
        assert SchemaRecord(o.schemas[schema.id]) in log;
      }
    case ChannelRecord(channel) =>
      if channel.schemaId in o.schemas {
        assert SchemaRecord(o.schemas[channel.schemaId]) in log;
      }
      if channel.id in o.channels {
        assert ChannelRecord(o.channels[channel.id]) in log;
      }
    case MessageRecord(id, _) =>
      if id in o.channels {
        assert ChannelRecord(o.channels[id]) in log;
      }
    case _ =>
  }

  /** A log is observed without refusal exactly when every record is in place by those before it. */
  lemma {:induction false} ObservedExactly(log: seq<Record>)
    ensures ObserveAll(log).Ok? <==> forall i :: 0 <= i < |log| ==> IsInPlace(log[..i], log[i])
    decreases |log|
  {
    hide Observe, IsInPlace;
    if log != [] {
      var last := |log| - 1;
      var earlier := log[..last];
      ObservedExactly(earlier);
      forall i | 0 <= i < last ensures earlier[..i] == log[..i] && earlier[i] == log[i] {
      }
      if ObserveAll(earlier).Ok? {
        DefinitionsAreObserved(earlier);
        OthersAreObserved(earlier);
        ObservedExactlyInPlace(ObserveAll(earlier).value, earlier, log[last]);
      }
    }
  }
}

/** Recording summaries: statistics and channel counts that the records bear out. */
module RecordingSummaries {
  import opened Outcomes
  import opened Counters
  import opened RecordingModel
  import McapLayout
  import McapChecksums

  datatype Entry = Entry(topic: string, encoding: string, name: string, count: nat)

  datatype Statistics = RecordedStatistics(
    messages: nat, schemas: nat, channels: nat, attachments: nat, metadata: nat, chunks: nat, start: nat, end: nat)

  datatype Summary = Summary(source: string, statistics: Statistics, channels: seq<Entry>)

  ghost function StatisticsOf(o: Facts, chunks: nat): Statistics {
    RecordedStatistics(Total(o.messages), |o.schemas|, |o.channels|, o.attachments, o.metadata, chunks,
               if o.start.Some? then o.start.value else 0, o.end)
  }

  /** Every channel once; the code sorts them by topic and ID. */
  ghost predicate IsListing(o: Facts, order: seq<nat>) {
    && (forall i, j :: 0 <= i < j < |order| ==> order[i] != order[j])
    && (forall c :: c in order <==> c in o.channels)
    && (forall c :: c in o.channels ==> o.channels[c].schemaId in o.schemas)
  }

  function EntryOf(o: Facts, c: nat): Entry
    requires c in o.channels && o.channels[c].schemaId in o.schemas
  {
    Entry(o.channels[c].topic, o.channels[c].encoding, o.schemas[o.channels[c].schemaId].name, Count(o.messages, c))
  }

  function Entries(o: Facts, order: seq<nat>): seq<Entry>
    requires forall c :: c in order ==> c in o.channels && o.channels[c].schemaId in o.schemas
  {
    seq(|order|, i requires 0 <= i < |order| => assert order[i] in order; EntryOf(o, order[i]))
  }

  /** What a list of channel entries counts for a topic and type. */
  function Counted(entries: seq<Entry>, topic: string, name: string): nat
    decreases |entries|
  {
    if entries == [] then 0
    else
      var e := entries[|entries| - 1];
      Counted(entries[..|entries| - 1], topic, name) + (if e.topic == topic && e.name == name then e.count else 0)
  }

  /** The summary says of a recording what its records say. */
  ghost predicate Describes(summary: Summary, log: seq<Record>) {
    && summary.statistics.messages == MessageCount(log)
    && (if MessageCount(log) == 0 then summary.statistics.start == summary.statistics.end == 0
        else AreExtremes(log, summary.statistics.start, summary.statistics.end))
    && (forall topic, name :: Counted(summary.channels, topic, name) == MessagesOn(log, log, topic, name))
    && summary.statistics.schemas == |SchemaIds(log)|
    && summary.statistics.channels == |ChannelIds(log)| == |summary.channels|
    && summary.statistics.attachments == multiset(log)[AttachmentRecord]
    && summary.statistics.metadata == multiset(log)[MetadataRecord]
    && forall channel :: ChannelRecord(channel) in log ==> IsListed(summary.channels, log, channel)
  }

  ghost function SchemaIds(log: seq<Record>): set<nat> {
    set r | r in log && r.SchemaRecord? :: r.schema.id
  }

  ghost function ChannelIds(log: seq<Record>): set<nat> {
    set r | r in log && r.ChannelRecord? :: r.channel.id
  }

  /** The channel has an entry of its topic, encoding and number of messages, under the name of its schema. */
  ghost predicate IsListed(entries: seq<Entry>, log: seq<Record>, channel: Channel) {
    exists i, schema ::
      && 0 <= i < |entries| && SchemaRecord(schema) in log && schema.id == channel.schemaId
      && entries[i] == Entry(channel.topic, channel.encoding, schema.name, MessagesIn(log, {channel.id}))
  }

  // ---- Channel counts -------------------------------------------------------------------

  lemma {:induction false} MessagesInMore(log: seq<Record>, channels: set<nat>, c: nat)
    requires c !in channels
    ensures MessagesIn(log, channels + {c}) == MessagesIn(log, channels) + MessagesIn(log, {c})
    decreases |log|
  {
    if log != [] {
      MessagesInMore(log[..|log| - 1], channels, c);
    }
  }

  lemma {:induction false} MessagesInNone(log: seq<Record>)
    ensures MessagesIn(log, {}) == 0
    decreases |log|
  {
    if log != [] {
      MessagesInNone(log[..|log| - 1]);
    }
  }

  predicate Matches(o: Facts, c: nat, topic: string, name: string) {
    && c in o.channels && o.channels[c].schemaId in o.schemas
    && o.channels[c].topic == topic && o.schemas[o.channels[c].schemaId].name == name
  }

  function Matching(o: Facts, order: seq<nat>, topic: string, name: string): set<nat> {
    set c | c in order && Matches(o, c, topic, name)
  }

  /** The entries of distinct channels count each message once. */
  lemma {:induction false} EntriesCountMessages(o: Facts, log: seq<Record>, order: seq<nat>, topic: string, name: string)
    requires forall c :: Count(o.messages, c) == MessagesIn(log, {c})
    requires forall c :: c in order ==> c in o.channels && o.channels[c].schemaId in o.schemas
    requires forall i, j :: 0 <= i < j < |order| ==> order[i] != order[j]
    ensures Counted(Entries(o, order), topic, name) == MessagesIn(log, Matching(o, order, topic, name))
    decreases |order|
  {
    if order == [] {
      assert Matching(o, order, topic, name) == {};
      MessagesInNone(log);
    } else {
      var rest, c := order[..|order| - 1], order[|order| - 1];
      assert order == rest + [c];
      EntriesCountMessages(o, log, rest, topic, name);
      assert Entries(o, order)[..|order| - 1] == Entries(o, rest);
      assert Entries(o, order)[|order| - 1] == EntryOf(o, c);
      var before := Matching(o, rest, topic, name);
      if Matches(o, c, topic, name) {
        assert Matching(o, order, topic, name) == before + {c};
        MessagesInMore(log, before, c);
      } else {
        assert Matching(o, order, topic, name) == before;
      }
    }
  }

  lemma CarriedIsMatching(o: Facts, log: seq<Record>, order: seq<nat>, c: nat, topic: string, name: string)
    requires DefinitionsAgree(o, log) && IsListing(o, order)
    ensures Carries(log, c, topic, name) <==> c in Matching(o, order, topic, name)
  {
    if c in Matching(o, order, topic, name) {
      assert ChannelRecord(o.channels[c]) in log && SchemaRecord(o.schemas[o.channels[c].schemaId]) in log;
    }
  }

  lemma {:induction false} MessagesOnAreMatching(o: Facts, records: seq<Record>, log: seq<Record>, order: seq<nat>, topic: string, name: string)
    requires DefinitionsAgree(o, log) && IsListing(o, order)
    ensures MessagesOn(records, log, topic, name) == MessagesIn(records, Matching(o, order, topic, name))
    decreases |records|
  {
    hide DefinitionsAgree, IsListing, Carries, Matching;
    if records != [] {
      var r := records[|records| - 1];
      MessagesOnAreMatching(o, records[..|records| - 1], log, order, topic, name);
      if r.MessageRecord? {
        CarriedIsMatching(o, log, order, r.channelId, topic, name);
      }
    }
  }

  /** An accepted recording's summary counts, per topic and type, exactly the messages on it. */
  lemma SummaryDescribes(log: seq<Record>, order: seq<nat>, chunks: nat, source: string)
    requires ObserveAll(log).Ok? && IsListing(ObserveAll(log).value, order)
    ensures var o := ObserveAll(log).value;
            Describes(Summary(source, StatisticsOf(o, chunks), Entries(o, order)), log)
  {
    var o := ObserveAll(log).value;
    DefinitionsAreObserved(log);
    MessagesAreObserved(log);
    OthersAreObserved(log);
    DefinitionsAreCounted(o, log, order);
    hide ObserveAll, AreExtremes, Matching, IsListing, IsListed, SchemaIds, ChannelIds;
    var summary := Summary(source, StatisticsOf(o, chunks), Entries(o, order));
    forall topic, name ensures Counted(summary.channels, topic, name) == MessagesOn(log, log, topic, name) {
      ListingFacts(o, order);
      EntriesCountMessages(o, log, order, topic, name);
      MessagesOnAreMatching(o, log, log, order, topic, name);
    }
  }

  lemma DefinitionsAreCounted(o: Facts, log: seq<Record>, order: seq<nat>)
    requires DefinitionsAgree(o, log) && IsListing(o, order) && forall c :: Count(o.messages, c) == MessagesIn(log, {c})
    ensures |o.schemas| == |SchemaIds(log)| && |o.channels| == |ChannelIds(log)| == |order|
    ensures forall channel :: ChannelRecord(channel) in log ==> IsListed(Entries(o, order), log, channel)
  {
    assert o.schemas.Keys == SchemaIds(log) by {
      forall id | id in o.schemas ensures id in SchemaIds(log) {
        assert SchemaRecord(o.schemas[id]) in log;
      }
    }
    assert o.channels.Keys == ChannelIds(log) by {
      forall id | id in o.channels ensures id in ChannelIds(log) {
        assert ChannelRecord(o.channels[id]) in log;
      }
    }
    DistinctCounted(order, o.channels.Keys);
    forall channel | ChannelRecord(channel) in log ensures IsListed(Entries(o, order), log, channel) {
      var i :| 0 <= i < |order| && order[i] == channel.id;
      assert Entries(o, order)[i] == EntryOf(o, channel.id);
      assert SchemaRecord(o.schemas[channel.schemaId]) in log;
    }
  }

  lemma {:induction false} DistinctCounted(order: seq<nat>, ids: set<nat>)
    requires forall i, j :: 0 <= i < j < |order| ==> order[i] != order[j]
    requires forall c :: c in order <==> c in ids
    ensures |order| == |ids|
    decreases |order|
  {
    if order == [] {
      assert ids == {};
    } else {
      var rest, last := order[..|order| - 1], order[|order| - 1];
      assert order == rest + [last];
      DistinctCounted(rest, ids - {last});
    }
  }

  lemma ListingFacts(o: Facts, order: seq<nat>)
    requires IsListing(o, order)
    ensures forall c :: c in order ==> c in o.channels && o.channels[c].schemaId in o.schemas
    ensures forall i, j :: 0 <= i < j < |order| ==> order[i] != order[j]
  {
  }

  /** Per-channel statistics are optional; where present they leave out no channel with messages. */
  predicate CountsAgree(counts: map<nat, nat>, o: Facts) {
    counts != map[] ==>
      && (forall c :: c in counts.Keys + o.messages.Keys ==> Count(counts, c) == Count(o.messages, c))
      && (forall c :: c in counts ==> c in o.channels)
  }

  /** Per-channel statistics are accepted exactly when they are the true counts, and of defined channels only. */
  lemma AcceptedCountsAreMessages(counts: map<nat, nat>, log: seq<Record>)
    requires ObserveAll(log).Ok? && counts != map[]
    ensures CountsAgree(counts, ObserveAll(log).value) <==>
              && (forall c :: Count(counts, c) == MessagesIn(log, {c}))
              && forall c :: c in counts ==> exists channel: Channel :: channel.id == c && ChannelRecord(channel) in log
  {
    var o := ObserveAll(log).value;
    MessagesAreObserved(log);
    DefinitionsAreObserved(log);
    hide ObserveAll, MessagesIn;
    if CountsAgree(counts, o) {
      forall c ensures Count(counts, c) == MessagesIn(log, {c}) {
        assert c in counts.Keys + o.messages.Keys || (Count(counts, c) == 0 && Count(o.messages, c) == 0);
      }
      forall c | c in counts ensures exists channel: Channel :: channel.id == c && ChannelRecord(channel) in log {
        assert ChannelRecord(o.channels[c]) in log;
      }
    }
  }

  /** Each fact about a recording, updated record by record. */
  class Observations {
    var schemas: map<nat, Schema>
    var channels: map<nat, Channel>
    var messages: map<nat, nat>
    var attachments: nat
    var metadata: nat
    var start: Option<nat>
    var end: nat
    var inSummary: bool

    function State(): Facts
      reads this
    {
      Facts(schemas, channels, messages, attachments, metadata, start, end, inSummary)
    }

    constructor ()
      ensures State() == NOTHING
    {
      schemas, channels, messages, attachments, metadata, start, end, inSummary := map[], map[], map[], 0, 0, None, 0, false;
    }

    method DefineSchema(schema: Schema) returns (failure: Option<Failure>)
      modifies this`schemas
      ensures Agrees(RecordingModel.Observe(old(State()), SchemaRecord(schema)), failure, old(State()), State())
    {
      if schema.id == 0 {
        return Some(SchemaIdZero);
      }
      var defined := Define(schemas, schema.id, schema, inSummary);
      if defined.Err? {
        return Some(defined.error);
      }
      schemas := defined.value;
      return None;
    }

    method DefineChannel(channel: Channel) returns (failure: Option<Failure>)
      modifies this`channels
      ensures Agrees(RecordingModel.Observe(old(State()), ChannelRecord(channel)), failure, old(State()), State())
    {
      if channel.schemaId == 0 {
        return Some(UnnamedSchema);
      }
      if channel.schemaId !in schemas {
        return Some(UndefinedSchema);
      }
      var defined := Define(channels, channel.id, channel, inSummary);
      if defined.Err? {
        return Some(defined.error);
      }
      channels := defined.value;
      return None;
    }

    method Message(channelId: nat, logTime: nat) returns (failure: Option<Failure>)
      modifies this`messages, this`start, this`end
      ensures Agrees(RecordingModel.Observe(old(State()), MessageRecord(channelId, logTime)), failure, old(State()), State())
    {
      if inSummary {
        return Some(MessageAfterDataEnd);
      }
      if channelId !in channels {
        return Some(UndefinedChannel);
      }
      messages := messages[channelId := Count(messages, channelId) + 1];
      start := Some(if start.None? || logTime < start.value then logTime else start.value);
      end := if end < logTime then logTime else end;
      return None;
    }

    method Observe(record: Record) returns (failure: Option<Failure>)
      modifies this
      ensures Agrees(RecordingModel.Observe(old(State()), record), failure, old(State()), State())
    {
      match record
      case DataEnd =>
        if inSummary {
          return Some(DuplicateDataEnd);
        }
        inSummary := true;
        return None;
      case SchemaRecord(schema) => failure := DefineSchema(schema);
      case ChannelRecord(channel) => failure := DefineChannel(channel);
      case MessageRecord(channelId, logTime) => failure := Message(channelId, logTime);
      case AttachmentRecord =>
        if inSummary {
          return Some(AuxiliaryAfterDataEnd);
        }
        attachments := attachments + 1;
        return None;
      case MetadataRecord =>
        if inSummary {
          return Some(AuxiliaryAfterDataEnd);
        }
        metadata := metadata + 1;
        return None;
      case OtherRecord => return None;
    }

    /** The total is summed over the counter in any order. */
    method Statistics(chunks: nat) returns (r: Result<Statistics, Failure>)
      ensures if inSummary then r == Ok(StatisticsOf(State(), chunks)) else r == Err(NoDataEnd)
    {
      if !inSummary {
        return Err(NoDataEnd);
      }
      var total := 0;
      var rest := messages;
      while rest != map[]
        invariant total + Total(rest) == Total(messages)
        decreases |rest|
      {
        var c :| c in rest;
        TotalWithout(rest, c);
        total := total + rest[c];
        rest := rest - {c};
      }
      return Ok(RecordedStatistics(total, |schemas|, |channels|, attachments, metadata, chunks,
                                   if start.Some? then start.value else 0, end));
    }
  }

  /** A refused record leaves the facts as they are. */
  predicate Agrees(expected: Result<Facts, Failure>, failure: Option<Failure>, before: Facts, after: Facts) {
    if failure.None? then expected == Ok(after) else expected == Err(failure.value) && after == before
  }

  /** What the summary section says: there is none, it has no Statistics, or the Statistics and their counts per channel. */
  datatype Finalization = Unfinalized | WithoutStatistics | Finalized(declared: Statistics, counts: map<nat, nat>)

  /** When a recording and what it declares of itself are accepted. */
  ghost predicate IsAccepted(file: seq<bv8>, log: seq<Record>, chunks: nat, f: Finalization) {
    && McapLayout.Walk(file, McapLayout.MAGIC_SIZE)
    && f.Finalized? && ObserveAll(log).Ok? && ObserveAll(log).value.inSummary
    && f.declared == StatisticsOf(ObserveAll(log).value, chunks) && CountsAgree(f.counts, ObserveAll(log).value)
  }

  /**
   The log is what the reader makes of the file. A stream that delivers all it
   has is refused only when the recording is not to be accepted.
   */
  method SummarizeStream(stream: McapChecksums.Stream, log: seq<Record>, chunks: nat, f: Finalization, source: string)
    returns (r: Result<Summary, Failure>)
    modifies stream
    ensures r.Ok? ==> IsAccepted(stream.data, log, chunks, f)
    ensures r.Err? && stream.full ==> !IsAccepted(stream.data, log, chunks, f)
    ensures r.Ok? ==> Describes(r.value, log) && r.value.source == source && r.value.statistics == f.declared
  {
    hide McapLayout.Walk;
    var problem := McapChecksums.VerifyExtraCrcs(stream);
    if problem.Some? {
      return Err(ChecksumMismatch);
    }
    match f
    case Unfinalized => return Err(NoSummary);
    case WithoutStatistics => return Err(NoStatistics);
    case Finalized(declared, counts) => r := Summarize(log, chunks, declared, counts, source);
  }

  /** Over a log whose file has been checked: accepted exactly when the records are consistent and as declared. */
  method Summarize(log: seq<Record>, chunks: nat, declared: Statistics, counts: map<nat, nat>, source: string)
    returns (r: Result<Summary, Failure>)
    ensures r.Ok? <==>
              && ObserveAll(log).Ok? && ObserveAll(log).value.inSummary
              && declared == StatisticsOf(ObserveAll(log).value, chunks) && CountsAgree(counts, ObserveAll(log).value)
    ensures r.Ok? ==> Describes(r.value, log) && r.value.source == source && r.value.statistics == declared && declared.chunks == chunks
  {
    hide Describes, DefinitionsAgree, Observe;
    var observed := new Observations();
    var i := 0;
    while i < |log|
      invariant 0 <= i <= |log| && ObserveAll(log[..i]) == Ok(observed.State())
    {
      var failure := observed.Observe(log[i]);
      assert log[..i + 1][..i] == log[..i];
      if failure.Some? {
        RefusalIsFinal(log, i + 1);
        return Err(failure.value);
      }
      i := i + 1;
    }
    assert log[..i] == log;
    var statistics := observed.Statistics(chunks);
    if statistics.Err? {
      return Err(statistics.error);
    }
    if declared != statistics.value {
      return Err(StatisticsContradict);
    }
    if !CountsAgree(counts, observed.State()) {
      return Err(ChannelCountsContradict);
    }
    ChannelsHaveSchemas(log);
    var entries, order := ListChannels(observed.State());
    SummaryDescribes(log, order, chunks, source);
    return Ok(Summary(source, statistics.value, entries));
  }

  lemma ChannelsHaveSchemas(log: seq<Record>)
    requires ObserveAll(log).Ok?
    ensures var o := ObserveAll(log).value; forall c :: c in o.channels ==> o.channels[c].schemaId in o.schemas
  {
    DefinitionsAreObserved(log);
  }

  /** One entry for each channel; in which order is left open. */
  method ListChannels(o: Facts) returns (entries: seq<Entry>, ghost order: seq<nat>)
    requires forall c :: c in o.channels ==> o.channels[c].schemaId in o.schemas
    ensures IsListing(o, order) && entries == Entries(o, order)
  {
    entries, order := [], [];
    var rest := o.channels.Keys;
    while rest != {}
      invariant rest <= o.channels.Keys
      invariant forall i, j :: 0 <= i < j < |order| ==> order[i] != order[j]
      invariant forall c :: c in order <==> c in o.channels && c !in rest
      invariant entries == Entries(o, order)
      decreases |rest|
    {
      var c :| c in rest;
      entries, order, rest := entries + [EntryOf(o, c)], order + [c], rest - {c};
    }
  }

  /** Once a record is refused, so is the whole recording. */
  lemma {:induction false} RefusalIsFinal(log: seq<Record>, i: nat)
    requires i <= |log| && ObserveAll(log[..i]).Err?
    ensures ObserveAll(log).Err?
    decreases |log| - i
  {
    hide Observe;
    if i == |log| {
      assert log[..i] == log;
    } else {
      assert log[..i + 1][..i] == log[..i];
      RefusalIsFinal(log, i + 1);
    }
  }
}

/** The relative paths of a dataset's members, as POSIX resolves them. */
module MemberPaths {

  /** The parts between the slashes; there is always at least one. */
  function Parts(name: string): (parts: seq<string>)
    ensures parts != []
  {
    if name == "" then [""]
    else
      var rest := Parts(name[1..]);
      if name[0] == '/' then [""] + rest else [[name[0]] + rest[0]] + rest[1..]
  }

  predicate IsAbsolute(name: string) {
    name != "" && name[0] == '/'
  }

  predicate HasControl(name: string) {
    exists c :: c in name && ((c as int) < 32 || c as int == 127)
  }

  const SUFFIX := ".mcap"

  /** The suffix of a file name begins at its last dot, unless that is its first character. */
  predicate HasSuffix(file: string) {
    |file| > |SUFFIX| && file[|file| - |SUFFIX|..] == SUFFIX
  }

  const SPECIAL := {"", ".", ".."}

  predicate IsConfined(name: string) {
    && !IsAbsolute(name) && '\\' !in name && (forall part :: part in Parts(name) ==> part !in SPECIAL)
    && !HasControl(name) && HasSuffix(Parts(name)[|Parts(name)| - 1])
  }

  /** Parts with slashes between them. */
  function Joined(parts: seq<string>): string
    requires parts != []
  {
    if |parts| == 1 then parts[0] else parts[0] + "/" + Joined(parts[1..])
  }

  lemma {:induction false} PlainNameIsOnePart(name: string)
    requires '/' !in name
    ensures Parts(name) == [name]
  {
    if name != "" {
      PlainNameIsOnePart(name[1..]);
      assert name == [name[0]] + name[1..];
    }
  }

  lemma {:induction false} FirstPart(part: string, rest: string)
    requires '/' !in part
    ensures Parts(part + "/" + rest) == [part] + Parts(rest)
    decreases |part|
  {
    var whole := part + "/" + rest;
    if part == "" {
      assert whole[1..] == rest;
    } else {
      FirstPart(part[1..], rest);
      assert whole[1..] == part[1..] + "/" + rest;
      assert part == [part[0]] + part[1..];
    }
  }

  lemma {:induction false} JoinedApart(parts: seq<string>)
    requires parts != [] && forall part :: part in parts ==> '/' !in part
    ensures Parts(Joined(parts)) == parts
    decreases |parts|
  {
    if |parts| == 1 {
      PlainNameIsOnePart(parts[0]);
    } else {
      JoinedApart(parts[1..]);
      FirstPart(parts[0], Joined(parts[1..]));
    }
  }

  /** A character that may occur in a member path. */
  predicate IsPlain(c: char) {
    0x20 <= c as int && c as int != 0x7F && c != '\\'
  }

  lemma {:induction false} JoinedIsPlain(parts: seq<string>)
    requires parts != []
    ensures (forall c :: c in Joined(parts) ==> IsPlain(c)) <==> ArePlain(parts)
    decreases |parts|
  {
    if |parts| > 1 {
      JoinedIsPlain(parts[1..]);
      assert forall c :: c in Joined(parts) <==> c in parts[0] || c == '/' || c in Joined(parts[1..]);
      assert forall part :: part in parts <==> part == parts[0] || part in parts[1..];
    }
  }

  predicate AreOrdinary(parts: seq<string>) {
    forall part :: part in parts ==> part != "" && part != "." && part != ".."
  }

  predicate ArePlain(parts: seq<string>) {
    forall part, c :: part in parts && c in part ==> IsPlain(c)
  }

  /** Written from its parts, a path passes exactly with plain characters, no empty or dotted part, and a recording's name at its end. */
  lemma ConfinedExactly(parts: seq<string>)
    requires parts != [] && forall part :: part in parts ==> '/' !in part
    ensures IsConfined(Joined(parts)) <==>
              && AreOrdinary(parts) && ArePlain(parts)
              && exists stem: string :: stem != "" && parts[|parts| - 1] == stem + ".mcap"
  {
    JoinedApart(parts);
    JoinedIsPlain(parts);
    SuffixExactly(parts[|parts| - 1]);
    PlainExactly(Joined(parts));
    OrdinaryExactly(parts);
    if AreOrdinary(parts) {
      OrdinaryIsNotEmpty(parts);
      FirstIsNotSlash(parts);
    }
    hide Parts, HasSuffix, HasControl, IsPlain, IsAbsolute, Joined, AreOrdinary;
  }

  lemma OrdinaryExactly(parts: seq<string>)
    ensures (forall part :: part in parts ==> part !in SPECIAL) <==> AreOrdinary(parts)
  {
  }

  lemma OrdinaryIsNotEmpty(parts: seq<string>)
    requires parts != [] && AreOrdinary(parts)
    ensures parts[0] != ""
  {
    assert parts[0] in parts;
  }

  lemma SuffixExactly(file: string)
    ensures HasSuffix(file) <==> exists stem: string :: stem != "" && file == stem + ".mcap"
  {
    if HasSuffix(file) {
      assert file == file[..|file| - 5] + ".mcap";
    }
  }

  lemma PlainExactly(name: string)
    ensures '\\' !in name && !HasControl(name) <==> forall c :: c in name ==> IsPlain(c)
  {
  }

  lemma FirstIsNotSlash(parts: seq<string>)
    requires parts != [] && parts[0] != "" && '/' !in parts[0]
    ensures !IsAbsolute(Joined(parts))
  {
    assert Joined(parts)[0] == parts[0][0];
  }

  /** Where the parts lead from a directory: two dots leave it, except at the root. */
  function Resolve(directory: seq<string>, parts: seq<string>): seq<string>
    decreases |parts|
  {
    if parts == [] then directory
    else
      var next :=
        if parts[0] in {"", "."} then directory
        else if parts[0] != ".." then directory + [parts[0]]
        else if directory == [] then [] else directory[..|directory| - 1];
      Resolve(next, parts[1..])
  }

  function FileOf(directory: seq<string>, name: string): seq<string> {
    Resolve(if IsAbsolute(name) then [] else directory, Parts(name))
  }

  lemma {:induction false} PlainPartsDescend(directory: seq<string>, parts: seq<string>)
    requires forall part :: part in parts ==> part !in SPECIAL
    ensures Resolve(directory, parts) == directory + parts
    decreases |parts|
  {
    if parts != [] {
      assert parts[0] in parts && parts[0] !in SPECIAL;
      PlainPartsDescend(directory + [parts[0]], parts[1..]);
    }
  }

  /** A confined path leads to a file below the directory, and no step on the way leaves the directory. */
  lemma ConfinedPathStaysBelow(directory: seq<string>, name: string, k: nat)
    requires IsConfined(name) && k <= |Parts(name)|
    ensures directory <= Resolve(directory, Parts(name)[..k])
    ensures FileOf(directory, name) == directory + Parts(name) && directory < FileOf(directory, name)
  {
    PlainPartsDescend(directory, Parts(name)[..k]);
    PlainPartsDescend(directory, Parts(name));
  }

  /** Splitting at slashes loses nothing. */
  lemma {:induction false} PartsDetermineName(a: string, b: string)
    requires Parts(a) == Parts(b)
    ensures a == b
    decreases |a|
  {
    if a != "" && b != "" {
      var p, q := Parts(a[1..]), Parts(b[1..]);
      SplitStep(a);
      SplitStep(b);
      if a[0] == '/' {
        assert Parts(a)[1..] == p && Parts(b)[1..] == q;
      } else {
        assert Parts(a)[0][0] == a[0] && Parts(a)[0][1..] == p[0] && Parts(b)[0][1..] == q[0];
        assert Parts(a)[1..] == p[1..] && Parts(b)[1..] == q[1..];
        assert p == [p[0]] + p[1..] && q == [q[0]] + q[1..];
      }
      PartsDetermineName(a[1..], b[1..]);
    } else if a != "" {
      SplitStep(a);
    } else if b != "" {
      SplitStep(b);
    }
  }

  lemma SplitStep(name: string)
    requires name != ""
    ensures if name[0] == '/' then Parts(name)[0] == "" && |Parts(name)| > 1
            else Parts(name)[0] != "" && Parts(name)[0][0] == name[0]
  {
  }

  /** Different confined paths are different files, so members with unique paths are. */
  lemma ConfinedPathsAreFiles(directory: seq<string>, a: string, b: string)
    requires IsConfined(a) && IsConfined(b) && FileOf(directory, a) == FileOf(directory, b)
    ensures a == b
  {
    ConfinedPathStaysBelow(directory, a, 0);
    ConfinedPathStaysBelow(directory, b, 0);
    assert (directory + Parts(a))[|directory|..] == Parts(a) && (directory + Parts(b))[|directory|..] == Parts(b);
    PartsDetermineName(a, b);
  }
}

/** A dataset of several recordings, and the conservation of messages from records to manifest. */
module Datasets {
  import opened Outcomes
  import opened Sequences
  import opened Counters
  import opened RecordingModel
  import opened RecordingSummaries
  import opened MemberPaths

  datatype Reference = Reference(sha256: string, uri: string)

  datatype Member = Member(path: string, segment: nat, recording: Reference, summary: Reference)

  datatype DatasetChannel = DatasetChannel(topic: string, name: string, count: nat)

  datatype Dataset = Dataset(
    metadataUri: string, members: seq<Member>, messageCount: nat, channels: seq<DatasetChannel>, start: nat, end: nat)

  datatype Problem =
    | UnconfinedPath | SegmentIndex | DuplicateIdentity | DuplicateSummary | AliasedUri
    | Cardinality | SourceMismatch | MessageCountMismatch | ChannelCountMismatch | NoMessages | StartMismatch | EndMismatch

  // ---- Structure ---------------------------------------------------------------------------

  /** All references of a manifest in order: its metadata, then each member's recording and summary. */
  function Uris(metadataUri: string, members: seq<Member>): seq<string>
    decreases |members|
  {
    if members == [] then [metadataUri]
    else
      var m := members[|members| - 1];
      Uris(metadataUri, members[..|members| - 1]) + [m.recording.uri, m.summary.uri]
  }

  predicate IsStructured(metadataUri: string, members: seq<Member>) {
    ArePlaced(members) && AreApart(members) && Distinct(Uris(metadataUri, members))
  }

  /** Members are numbered in order and lie below the dataset. */
  predicate ArePlaced(members: seq<Member>) {
    forall i :: 0 <= i < |members| ==> members[i].segment == i && IsConfined(members[i].path)
  }

  predicate IsApart(m: Member, n: Member) {
    m.path != n.path && m.recording.sha256 != n.recording.sha256 && m.summary.sha256 != n.summary.sha256
  }

  predicate AreApart(members: seq<Member>) {
    forall i, j :: 0 <= i < j < |members| ==> IsApart(members[i], members[j])
  }

  lemma StructureExtends(metadataUri: string, members: seq<Member>)
    requires members != []
    ensures var earlier, m := members[..|members| - 1], members[|members| - 1];
            IsStructured(metadataUri, members) <==>
              && IsStructured(metadataUri, earlier) && m.segment == |earlier| && IsConfined(m.path)
              && (forall i :: 0 <= i < |earlier| ==> IsApart(earlier[i], m))
              && m.recording.uri !in Uris(metadataUri, earlier)
              && m.summary.uri !in Uris(metadataUri, earlier) + [m.recording.uri]
  {
    var earlier, m := members[..|members| - 1], members[|members| - 1];
    PlacesExtend(earlier, m);
    PairsExtend(earlier, m);
    DistinctExtends(Uris(metadataUri, earlier), m.recording.uri, m.summary.uri);
    assert members == earlier + [m];
    hide ArePlaced, AreApart, IsApart, Distinct, IsConfined;
  }

  lemma PlacesExtend(earlier: seq<Member>, m: Member)
    ensures ArePlaced(earlier + [m]) <==> ArePlaced(earlier) && m.segment == |earlier| && IsConfined(m.path)
  {
    hide IsConfined;
    var all := earlier + [m];
    assert all[|earlier|] == m;
    assert forall i :: 0 <= i < |earlier| ==> all[i] == earlier[i];
  }

  lemma PairsExtend(earlier: seq<Member>, m: Member)
    ensures AreApart(earlier + [m]) <==> AreApart(earlier) && forall i :: 0 <= i < |earlier| ==> IsApart(earlier[i], m)
  {
    hide IsApart;
    var all := earlier + [m];
    assert all[|earlier|] == m;
    assert forall i :: 0 <= i < |earlier| ==> all[i] == earlier[i];
  }

  lemma DistinctExtends(uris: seq<string>, first: string, second: string)
    ensures Distinct(uris + [first, second]) <==> Distinct(uris) && first !in uris && second !in uris + [first]
  {
    var all := uris + [first, second];
    assert all[|uris|] == first && all[|uris| + 1] == second;
    assert forall i :: 0 <= i < |uris| ==> all[i] == uris[i];
  }

  /** Two members of an accepted dataset are two files below its directory. */
  lemma MembersAreSeparateFiles(metadataUri: string, members: seq<Member>, directory: seq<string>, i: nat, j: nat)
    requires IsStructured(metadataUri, members) && i < j < |members|
    ensures directory < FileOf(directory, members[i].path) && directory < FileOf(directory, members[j].path)
    ensures FileOf(directory, members[i].path) != FileOf(directory, members[j].path)
  {
    hide Uris, IsConfined, FileOf;
    assert IsApart(members[i], members[j]);
    ConfinedPathStaysBelow(directory, members[i].path, 0);
    ConfinedPathStaysBelow(directory, members[j].path, 0);
    if FileOf(directory, members[i].path) == FileOf(directory, members[j].path) {
      ConfinedPathsAreFiles(directory, members[i].path, members[j].path);
    }
  }

  lemma {:induction false} StructureOfPrefix(metadataUri: string, members: seq<Member>, i: nat)
    requires i <= |members| && IsStructured(metadataUri, members)
    ensures IsStructured(metadataUri, members[..i])
    decreases |members| - i
  {
    hide IsStructured;
    if i == |members| {
      assert members[..i] == members;
    } else {
      StructureOfPrefix(metadataUri, members, i + 1);
      StructureExtends(metadataUri, members[..i + 1]);
      assert members[..i + 1][..i] == members[..i];
    }
  }

  method ValidateBagStructure(metadataUri: string, members: seq<Member>) returns (problem: Option<Problem>)
    ensures problem.None? <==> IsStructured(metadataUri, members)
  {
    hide IsStructured, Uris, IsConfined;
    var paths: set<string>, recordings: set<string>, summaries: set<string>, uris := {}, {}, {}, {metadataUri};
    EmptyIsStructured(metadataUri);
    var i := 0;
    while i < |members|
      invariant 0 <= i <= |members| && IsStructured(metadataUri, members[..i])
      invariant forall p :: p in paths <==> exists j :: 0 <= j < i && members[j].path == p
      invariant forall p :: p in recordings <==> exists j :: 0 <= j < i && members[j].recording.sha256 == p
      invariant forall p :: p in summaries <==> exists j :: 0 <= j < i && members[j].summary.sha256 == p
      invariant forall u :: u in uris <==> u in Uris(metadataUri, members[..i])
    {
      var m := members[i];
      StructureExtends(metadataUri, members[..i + 1]);
      assert members[..i + 1][..i] == members[..i];
      UrisExtend(metadataUri, members, i);
      if !IsConfined(m.path) || m.segment != i || m.path in paths || m.recording.sha256 in recordings || m.summary.sha256 in summaries ||
         m.recording.uri in uris || m.summary.uri in uris + {m.recording.uri} {
        if IsStructured(metadataUri, members) {
          StructureOfPrefix(metadataUri, members, i + 1);
        }
        return Some(if !IsConfined(m.path) then UnconfinedPath
                    else if m.segment != i then SegmentIndex
                    else if m.path in paths || m.recording.sha256 in recordings then DuplicateIdentity
                    else if m.summary.sha256 in summaries then DuplicateSummary else AliasedUri);
      }
      paths, recordings, summaries := paths + {m.path}, recordings + {m.recording.sha256}, summaries + {m.summary.sha256};
      uris := uris + {m.recording.uri, m.summary.uri};
      i := i + 1;
    }
    assert members[..i] == members;
    return None;
  }

  lemma EmptyIsStructured(metadataUri: string)
    ensures IsStructured(metadataUri, []) && Uris(metadataUri, []) == [metadataUri]
  {
  }

  lemma UrisExtend(metadataUri: string, members: seq<Member>, i: nat)
    requires i < |members|
    ensures Uris(metadataUri, members[..i + 1]) == Uris(metadataUri, members[..i]) + [members[i].recording.uri, members[i].summary.uri]
  {
    assert members[..i + 1][..i] == members[..i];
  }

  // ---- Totals over the members -----------------------------------------------------------------

  function SummedCount(summaries: seq<Summary>, topic: string, name: string): nat
    decreases |summaries|
  {
    if summaries == [] then 0
    else SummedCount(summaries[..|summaries| - 1], topic, name) + Counted(summaries[|summaries| - 1].channels, topic, name)
  }

  function SummedMessages(summaries: seq<Summary>): nat
    decreases |summaries|
  {
    if summaries == [] then 0 else SummedMessages(summaries[..|summaries| - 1]) + summaries[|summaries| - 1].statistics.messages
  }

  /** What a manifest says of a topic and type: its last entry for them, or nothing. */
  function Declared(channels: seq<DatasetChannel>, topic: string, name: string): nat
    decreases |channels|
  {
    if channels == [] then 0
    else
      var c := channels[|channels| - 1];
      if c.topic == topic && c.name == name then c.count else Declared(channels[..|channels| - 1], topic, name)
  }

  /** The least start and the greatest end among the members that have messages. */
  predicate AreBounds(summaries: seq<Summary>, start: nat, end: nat) {
    && (forall s :: s in summaries && s.statistics.messages > 0 ==> start <= s.statistics.start && s.statistics.end <= end)
    && (exists s :: s in summaries && s.statistics.messages > 0 && s.statistics.start == start)
    && (exists s :: s in summaries && s.statistics.messages > 0 && s.statistics.end == end)
  }

  predicate SourcesAgree(members: seq<Member>, summaries: seq<Summary>) {
    |members| == |summaries| && forall i :: 0 <= i < |members| ==> summaries[i].source == members[i].recording.sha256
  }

  ghost predicate CountsAreDeclared(channels: seq<DatasetChannel>, summaries: seq<Summary>) {
    forall topic, name :: Declared(channels, topic, name) == SummedCount(summaries, topic, name)
  }

  ghost predicate IsConsistent(d: Dataset, summaries: seq<Summary>) {
    && IsStructured(d.metadataUri, d.members) && SourcesAgree(d.members, summaries)
    && d.messageCount == SummedMessages(summaries) && CountsAreDeclared(d.channels, summaries)
    && AreBounds(summaries, d.start, d.end)
  }

  // ---- The checks in the order of the code --------------------------------------------------------

  type Key = (string, string)

  ghost predicate CountsEntries(counts: map<Key, nat>, summaries: seq<Summary>, entries: seq<Entry>) {
    forall topic, name :: Count(counts, (topic, name)) == SummedCount(summaries, topic, name) + Counted(entries, topic, name)
  }

  method AddChannels(before: map<Key, nat>, ghost summaries: seq<Summary>, entries: seq<Entry>) returns (counts: map<Key, nat>)
    requires CountsEntries(before, summaries, [])
    ensures CountsEntries(counts, summaries, entries)
  {
    counts := before;
    var i := 0;
    while i < |entries|
      invariant 0 <= i <= |entries| && CountsEntries(counts, summaries, entries[..i])
    {
      var e := entries[i];
      assert entries[..i + 1][..i] == entries[..i];
      counts := counts[(e.topic, e.name) := Count(counts, (e.topic, e.name)) + e.count];
      i := i + 1;
    }
    assert entries[..i] == entries;
  }

  lemma CountsMoveOn(counts: map<Key, nat>, summaries: seq<Summary>, i: nat)
    requires i < |summaries| && CountsEntries(counts, summaries[..i], summaries[i].channels)
    ensures CountsEntries(counts, summaries[..i + 1], [])
  {
    assert summaries[..i + 1][..i] == summaries[..i];
  }

  method DeclaredCounts(channels: seq<DatasetChannel>) returns (expected: map<Key, nat>)
    ensures forall topic, name :: Count(expected, (topic, name)) == Declared(channels, topic, name)
  {
    expected := map[];
    var i := 0;
    while i < |channels|
      invariant 0 <= i <= |channels|
      invariant forall topic, name :: Count(expected, (topic, name)) == Declared(channels[..i], topic, name)
    {
      assert channels[..i + 1][..i] == channels[..i];
      expected := expected[(channels[i].topic, channels[i].name) := channels[i].count];
      i := i + 1;
    }
    assert channels[..i] == channels;
  }

  /** Counters are equal when they count everything alike; a missing key counts nothing. */
  predicate SameCounts(a: map<Key, nat>, b: map<Key, nat>) {
    forall k :: k in a.Keys + b.Keys ==> Count(a, k) == Count(b, k)
  }

  lemma SameCountsDeclare(expected: map<Key, nat>, counts: map<Key, nat>, channels: seq<DatasetChannel>, summaries: seq<Summary>)
    requires forall topic, name :: Count(expected, (topic, name)) == Declared(channels, topic, name)
    requires CountsEntries(counts, summaries, [])
    ensures SameCounts(expected, counts) <==> CountsAreDeclared(channels, summaries)
  {
    if SameCounts(expected, counts) {
      forall topic, name ensures Declared(channels, topic, name) == SummedCount(summaries, topic, name) {
        assert Count(expected, (topic, name)) == Count(counts, (topic, name)) by {
          if (topic, name) in expected.Keys + counts.Keys {
          }
        }
      }
    }
    if CountsAreDeclared(channels, summaries) {
      forall k | k in expected.Keys + counts.Keys ensures Count(expected, k) == Count(counts, k) {
        var (topic, name) := k;
        assert Declared(channels, topic, name) == SummedCount(summaries, topic, name);
      }
    }
  }

  /** The intervals of the members with messages, in order. */
  predicate AreIntervals(intervals: seq<(nat, nat)>, summaries: seq<Summary>) {
    && (forall x :: x in intervals ==>
          exists s :: s in summaries && s.statistics.messages > 0 && (s.statistics.start, s.statistics.end) == x)
    && (forall s :: s in summaries && s.statistics.messages > 0 ==> (s.statistics.start, s.statistics.end) in intervals)
  }

  method Bounds(intervals: seq<(nat, nat)>) returns (start: nat, end: nat)
    requires intervals != []
    ensures (forall x :: x in intervals ==> start <= x.0 && x.1 <= end)
    ensures (exists x :: x in intervals && x.0 == start) && (exists x :: x in intervals && x.1 == end)
  {
    start, end := intervals[0].0, intervals[0].1;
    var i := 1;
    while i < |intervals|
      invariant 1 <= i <= |intervals|
      invariant forall j :: 0 <= j < i ==> start <= intervals[j].0 && intervals[j].1 <= end
      invariant (exists j :: 0 <= j < i && intervals[j].0 == start) && (exists j :: 0 <= j < i && intervals[j].1 == end)
    {
      start := if intervals[i].0 < start then intervals[i].0 else start;
      end := if end < intervals[i].1 then intervals[i].1 else end;
      i := i + 1;
    }
  }

  lemma BoundsAreUnique(intervals: seq<(nat, nat)>, summaries: seq<Summary>, start: nat, end: nat, d: nat, e: nat)
    requires AreIntervals(intervals, summaries)
    requires forall x :: x in intervals ==> start <= x.0 && x.1 <= end
    requires (exists x :: x in intervals && x.0 == start) && (exists x :: x in intervals && x.1 == end)
    ensures AreBounds(summaries, d, e) <==> d == start && e == end
  {
    assert AreBounds(summaries, start, end);
  }

  method ValidateBagSummaries(d: Dataset, summaries: seq<Summary>) returns (problem: Option<Problem>)
    ensures problem.None? <==> IsConsistent(d, summaries)
  {
    hide IsStructured, CountsEntries, AreIntervals, AreBounds, CountsAreDeclared, SameCounts;
    problem := ValidateBagStructure(d.metadataUri, d.members);
    if problem.Some? {
      return;
    }
    if |d.members| != |summaries| {
      return Some(Cardinality);
    }
    var counts: map<Key, nat>, intervals: seq<(nat, nat)>, total := map[], [], 0;
    NothingCounted();
    var i := 0;
    while i < |summaries|
      invariant 0 <= i <= |summaries| && SourcesAgree(d.members[..i], summaries[..i])
      invariant CountsEntries(counts, summaries[..i], []) && AreIntervals(intervals, summaries[..i])
      invariant total == SummedMessages(summaries[..i])
    {
      if d.members[i].recording.sha256 != summaries[i].source {
        return Some(SourceMismatch);
      }
      assert summaries[..i + 1][..i] == summaries[..i];
      total := total + summaries[i].statistics.messages;
      counts := AddChannels(counts, summaries[..i], summaries[i].channels);
      CountsMoveOn(counts, summaries, i);
      IntervalsMoveOn(intervals, summaries, i);
      if summaries[i].statistics.messages > 0 {
        intervals := intervals + [(summaries[i].statistics.start, summaries[i].statistics.end)];
      }
      i := i + 1;
    }
    assert summaries[..i] == summaries && d.members[..i] == d.members;
    if d.messageCount != total {
      return Some(MessageCountMismatch);
    }
    var expected := DeclaredCounts(d.channels);
    SameCountsDeclare(expected, counts, d.channels, summaries);
    if !SameCounts(expected, counts) {
      return Some(ChannelCountMismatch);
    }
    if intervals == [] {
      NoBounds(intervals, summaries, d.start, d.end);
      return Some(NoMessages);
    }
    var start, end := Bounds(intervals);
    BoundsAreUnique(intervals, summaries, start, end, d.start, d.end);
    if d.start != start {
      return Some(StartMismatch);
    }
    if d.end != end {
      return Some(EndMismatch);
    }
    return None;
  }

  lemma NothingCounted()
    ensures CountsEntries(map[], [], []) && AreIntervals([], [])
  {
  }

  lemma IntervalsMoveOn(intervals: seq<(nat, nat)>, summaries: seq<Summary>, i: nat)
    requires i < |summaries| && AreIntervals(intervals, summaries[..i])
    ensures var s := summaries[i].statistics;
            AreIntervals(if s.messages > 0 then intervals + [(s.start, s.end)] else intervals, summaries[..i + 1])
  {
    var s := summaries[i];
    assert summaries[..i + 1] == summaries[..i] + [s];
    assert forall x :: x in summaries[..i + 1] <==> x in summaries[..i] || x == s;
  }

  lemma NoBounds(intervals: seq<(nat, nat)>, summaries: seq<Summary>, start: nat, end: nat)
    requires AreIntervals(intervals, summaries) && intervals == []
    ensures !AreBounds(summaries, start, end)
  {
  }

  // ---- Conservation --------------------------------------------------------------------------------

  ghost function AllMessagesOn(logs: seq<seq<Record>>, topic: string, name: string): nat
    decreases |logs|
  {
    if logs == [] then 0
    else AllMessagesOn(logs[..|logs| - 1], topic, name) + MessagesOn(logs[|logs| - 1], logs[|logs| - 1], topic, name)
  }

  function AllMessages(logs: seq<seq<Record>>): nat
    decreases |logs|
  {
    if logs == [] then 0 else AllMessages(logs[..|logs| - 1]) + MessageCount(logs[|logs| - 1])
  }

  ghost predicate AllDescribed(summaries: seq<Summary>, logs: seq<seq<Record>>) {
    |summaries| == |logs| && forall i :: 0 <= i < |logs| ==> Describes(summaries[i], logs[i])
  }

  lemma {:induction false} SumsAreConserved(summaries: seq<Summary>, logs: seq<seq<Record>>, topic: string, name: string)
    requires AllDescribed(summaries, logs)
    ensures SummedCount(summaries, topic, name) == AllMessagesOn(logs, topic, name)
    ensures SummedMessages(summaries) == AllMessages(logs)
    decreases |logs|
  {
    if logs != [] {
      var n := |logs| - 1;
      assert AllDescribed(summaries[..n], logs[..n]);
      SumsAreConserved(summaries[..n], logs[..n], topic, name);
      assert Describes(summaries[n], logs[n]);
    }
  }

  /** A message of some recording with this time. */
  ghost predicate IsMessageTime(logs: seq<seq<Record>>, time: nat) {
    exists i, r :: 0 <= i < |logs| && r in logs[i] && r.MessageRecord? && r.logTime == time
  }

  lemma {:induction false} NoMessagesCounted(log: seq<Record>)
    ensures MessageCount(log) == 0 ==> forall r :: r in log ==> !r.MessageRecord?
    decreases |log|
  {
    if log != [] {
      NoMessagesCounted(log[..|log| - 1]);
      MembersOfExtended(log, log[|log| - 1]);
    }
  }

  /**
   End to end: a consistent manifest over faithful summaries counts, per topic
   and type and in total, exactly the messages of all recordings, and its time
   span is that of all messages.
   */
  lemma Conservation(d: Dataset, summaries: seq<Summary>, logs: seq<seq<Record>>)
    requires IsConsistent(d, summaries) && AllDescribed(summaries, logs)
    ensures forall topic, name :: Declared(d.channels, topic, name) == AllMessagesOn(logs, topic, name)
    ensures d.messageCount == AllMessages(logs)
    ensures forall time: nat :: IsMessageTime(logs, time) ==> d.start <= time <= d.end
    ensures IsMessageTime(logs, d.start) && IsMessageTime(logs, d.end)
  {
    hide IsStructured, Counted, AllMessagesOn, SummedCount, MessagesOn;
    forall topic, name ensures Declared(d.channels, topic, name) == AllMessagesOn(logs, topic, name) {
      SumsAreConserved(summaries, logs, topic, name);
    }
    SumsAreConserved(summaries, logs, "", "");
    forall time: nat | IsMessageTime(logs, time) ensures d.start <= time <= d.end {
      var i, r :| 0 <= i < |logs| && r in logs[i] && r.MessageRecord? && r.logTime == time;
      NoMessagesCounted(logs[i]);
      assert Describes(summaries[i], logs[i]) && summaries[i] in summaries;
    }
    var first :| first in summaries && first.statistics.messages > 0 && first.statistics.start == d.start;
    var last :| last in summaries && last.statistics.messages > 0 && last.statistics.end == d.end;
    var i :| 0 <= i < |summaries| && summaries[i] == first;
    var j :| 0 <= j < |summaries| && summaries[j] == last;
    assert Describes(summaries[i], logs[i]) && Describes(summaries[j], logs[j]);
  }

  /** What a manifest says of channels, messages and times is so in the recordings. */
  ghost predicate TellsTruth(d: Dataset, logs: seq<seq<Record>>) {
    && (forall topic, name :: Declared(d.channels, topic, name) == AllMessagesOn(logs, topic, name))
    && d.messageCount == AllMessages(logs)
    && IsMessageTime(logs, d.start) && IsMessageTime(logs, d.end)
    && forall time: nat :: IsMessageTime(logs, time) ==> d.start <= time <= d.end
  }

  /**
   With a faithful summary of each recording, the manifest is accepted exactly
   when it is well structured, names those recordings, and tells the truth
   about all their messages.
   */
  lemma AcceptedExactlyWhenTrue(d: Dataset, summaries: seq<Summary>, logs: seq<seq<Record>>)
    requires AllDescribed(summaries, logs)
    ensures IsConsistent(d, summaries) <==>
              && IsStructured(d.metadataUri, d.members)
              && |d.members| == |summaries| && (forall i :: 0 <= i < |summaries| ==> summaries[i].source == d.members[i].recording.sha256)
              && TellsTruth(d, logs)
  {
    hide IsStructured, AllDescribed, TellsTruth, CountsAreDeclared, AreBounds, SummedMessages;
    if IsConsistent(d, summaries) {
      ConsistentIsTrue(d, summaries, logs);
    }
    if TellsTruth(d, logs) {
      TruthIsConsistent(d, summaries, logs);
    }
  }

  lemma ConsistentIsTrue(d: Dataset, summaries: seq<Summary>, logs: seq<seq<Record>>)
    requires IsConsistent(d, summaries) && AllDescribed(summaries, logs)
    ensures TellsTruth(d, logs)
  {
    Conservation(d, summaries, logs);
    hide IsConsistent, AllDescribed, Declared, AllMessagesOn, AllMessages, IsMessageTime;
  }

  lemma TruthIsConsistent(d: Dataset, summaries: seq<Summary>, logs: seq<seq<Record>>)
    requires AllDescribed(summaries, logs) && TellsTruth(d, logs)
    ensures d.messageCount == SummedMessages(summaries) && CountsAreDeclared(d.channels, summaries) && AreBounds(summaries, d.start, d.end)
  {
    hide AllDescribed, Declared, AllMessagesOn, AllMessages, SummedCount, SummedMessages, IsMessageTime, AreBounds;
    forall topic, name ensures SummedCount(summaries, topic, name) == AllMessagesOn(logs, topic, name) {
      SumsAreConserved(summaries, logs, topic, name);
    }
    SumsAreConserved(summaries, logs, "", "");
    ExtremesAreBounds(summaries, logs, d.start, d.end);
  }

  lemma ExtremesAreBounds(summaries: seq<Summary>, logs: seq<seq<Record>>, start: nat, end: nat)
    requires AllDescribed(summaries, logs) && IsMessageTime(logs, start) && IsMessageTime(logs, end)
    requires forall time: nat :: IsMessageTime(logs, time) ==> start <= time <= end
    ensures AreBounds(summaries, start, end)
  {
    forall s | s in summaries && s.statistics.messages > 0 ensures start <= s.statistics.start && s.statistics.end <= end {
      var i :| 0 <= i < |summaries| && summaries[i] == s;
      SummaryTimes(summaries, logs, i);
    }
    var i, r :| 0 <= i < |logs| && r in logs[i] && r.MessageRecord? && r.logTime == start;
    NoMessagesCounted(logs[i]);
    SummaryTimes(summaries, logs, i);
    var j, q :| 0 <= j < |logs| && q in logs[j] && q.MessageRecord? && q.logTime == end;
    NoMessagesCounted(logs[j]);
    SummaryTimes(summaries, logs, j);
    assert summaries[i] in summaries && summaries[j] in summaries;
  }

  /** The times of a faithful summary are times of messages, and the extreme ones of its recording. */
  lemma SummaryTimes(summaries: seq<Summary>, logs: seq<seq<Record>>, i: nat)
    requires AllDescribed(summaries, logs) && i < |summaries|
    ensures i < |logs| && summaries[i].statistics.messages == MessageCount(logs[i])
    ensures MessageCount(logs[i]) > 0 ==>
              && IsMessageTime(logs, summaries[i].statistics.start) && IsMessageTime(logs, summaries[i].statistics.end)
              && forall r :: r in logs[i] && r.MessageRecord? ==> summaries[i].statistics.start <= r.logTime <= summaries[i].statistics.end
  {
    assert Describes(summaries[i], logs[i]);
  }

  // ---- References, pair by pair ---------------------------------------------------------------------

  /** No reference of one member is one of the other, of either kind. */
  predicate ReferApart(m: Member, n: Member) {
    && m.recording.uri != n.recording.uri && m.recording.uri != n.summary.uri
    && m.summary.uri != n.recording.uri && m.summary.uri != n.summary.uri
  }

  predicate RefersApart(metadataUri: string, m: Member) {
    m.recording.uri != metadataUri && m.summary.uri != metadataUri && m.recording.uri != m.summary.uri
  }

  lemma {:induction false} UrisOfMembers(metadataUri: string, members: seq<Member>)
    ensures forall u :: u in Uris(metadataUri, members) <==>
              u == metadataUri || exists i :: 0 <= i < |members| && (members[i].recording.uri == u || members[i].summary.uri == u)
    decreases |members|
  {
    if members != [] {
      var rest, last := members[..|members| - 1], members[|members| - 1];
      UrisOfMembers(metadataUri, rest);
      assert members == rest + [last];
    }
  }

  lemma LastRefersApart(metadataUri: string, rest: seq<Member>, last: Member)
    ensures last.recording.uri !in Uris(metadataUri, rest) && last.summary.uri !in Uris(metadataUri, rest) + [last.recording.uri]
       <==> RefersApart(metadataUri, last) && forall i :: 0 <= i < |rest| ==> ReferApart(rest[i], last)
  {
    UrisOfMembers(metadataUri, rest);
    hide Uris;
  }

  /** All references of a manifest differ, pair by pair. */
  predicate ReferencesApart(metadataUri: string, members: seq<Member>) {
    && (forall i :: 0 <= i < |members| ==> RefersApart(metadataUri, members[i]))
    && forall i, j :: 0 <= i < j < |members| ==> ReferApart(members[i], members[j])
  }

  lemma PairsOfMembers(metadataUri: string, rest: seq<Member>, last: Member)
    ensures ReferencesApart(metadataUri, rest + [last]) <==>
              ReferencesApart(metadataUri, rest) && RefersApart(metadataUri, last) && forall i :: 0 <= i < |rest| ==> ReferApart(rest[i], last)
  {
    hide RefersApart, ReferApart;
    var members := rest + [last];
    assert members[|rest|] == last;
    assert forall i :: 0 <= i < |rest| ==> members[i] == rest[i];
  }

  /** The one list of references is without repetition exactly when they differ pair by pair. */
  lemma {:induction false} UrisExactly(metadataUri: string, members: seq<Member>)
    ensures Distinct(Uris(metadataUri, members)) <==> ReferencesApart(metadataUri, members)
    decreases |members|
  {
    if members != [] {
      var rest, last := members[..|members| - 1], members[|members| - 1];
      UrisExactly(metadataUri, rest);
      LastRefersApart(metadataUri, rest, last);
      PairsOfMembers(metadataUri, rest, last);
      DistinctExtends(Uris(metadataUri, rest), last.recording.uri, last.summary.uri);
      assert members == rest + [last];
      UrisExtend(metadataUri, members, |members| - 1);
      assert members[..|members|] == members;
      hide Distinct, Uris, RefersApart, ReferApart, ReferencesApart;
    }
  }
}
