/**
 * The first database migration (utils/migrations.js:39-182). Vote documents used to be
 * keyed by (team, channel, timestamp); the migration merges the documents of one
 * (channel, timestamp) across teams, re-keys the closed documents from (team, timestamp)
 * to the channels recorded for that pair, reports the closed documents it cannot
 * resolve, and drops the team from the hidden documents.
 */
module MigrationOne {
  import opened Wrappers

  /** A vote document: per option key, the users who voted for it. */
  datatype VoteDoc = VoteDoc(team: Option<string>, channel: string, ts: string, votes: map<string, seq<string>>)

  /** A closed document; the old ones carry a team, the new ones the list of channels. */
  datatype ClosedDoc = ClosedDoc(team: Option<string>, channel: Option<seq<string>>, ts: string, closed: bool)

  /** A hidden document: its team, if any, and its other fields. */
  datatype HiddenDoc = HiddenDoc(team: Option<string>, others: map<string, string>)

  /** A team used as an object key: a missing team reads as `undefined`. */
  function TeamKey(team: Option<string>): string {
    match team
    case Some(t) => t
    case None => "undefined"
  }

  /** The bookkeeping member each merged document starts with (utils/migrations.js:67). */
  const TeamsKey := "teams"

  /**
   * `for (const vote of vs) if (!acc.includes(vote)) acc.push(vote)`: the voters of vs
   * not yet in acc, appended in first-seen order.
   */
  function DedupAppend(acc: seq<string>, vs: seq<string>): seq<string> {
    if |vs| == 0 then acc
    else
      var a := DedupAppend(acc, vs[..|vs| - 1]);
      if vs[|vs| - 1] in a then a else a + [vs[|vs| - 1]]
  }

  /**
   * The result holds exactly the voters of both lists, keeps acc as its prefix, and
   * repeats no voter when acc repeats none.
   */
  lemma {:induction false} DedupAppendSpec(acc: seq<string>, vs: seq<string>)
    ensures var r := DedupAppend(acc, vs);
      && (forall x :: x in r <==> x in acc || x in vs)
      && (NoDup(acc) ==> NoDup(r))
      && |acc| <= |r| && r[..|acc|] == acc
  {
    if |vs| > 0 {
      DedupAppendSpec(acc, vs[..|vs| - 1]);
      assert vs == vs[..|vs| - 1] + [vs[|vs| - 1]];
    }
  }

  /** Appending in two rounds is appending the concatenation. */
  lemma {:induction false} DedupAppendConcat(acc: seq<string>, xs: seq<string>, ys: seq<string>)
    ensures DedupAppend(DedupAppend(acc, xs), ys) == DedupAppend(acc, xs + ys)
  {
    if |ys| > 0 {
      var init := ys[..|ys| - 1];
      DedupAppendConcat(acc, xs, init);
      assert (xs + ys)[..|xs + ys| - 1] == xs + init;
    } else {
      assert xs + ys == xs;
    }
  }

  /** The dedup loop of utils/migrations.js:78-82. */
  method PushNew(acc: seq<string>, vs: seq<string>) returns (r: seq<string>)
    ensures r == DedupAppend(acc, vs)
  {
    r := acc;
    for k := 0 to |vs|
      invariant r == DedupAppend(acc, vs[..k])
    {
      assert vs[..k + 1][..k] == vs[..k];
      if vs[k] !in r {
        r := r + [vs[k]];
      }
    }
    assert vs[..|vs|] == vs;
  }

  /** A member of a vote map, or the empty list `votes[i] = []` starts with. */
  function Lookup(m: map<string, seq<string>>, k: string): seq<string> {
    if k in m then m[k] else []
  }

  /** Every option of the document merged into the entry (utils/migrations.js:73-83). */
  function MergeVotes(entry: map<string, seq<string>>, votes: map<string, seq<string>>): map<string, seq<string>> {
    map k | k in entry.Keys + votes.Keys :: if k in votes then DedupAppend(Lookup(entry, k), votes[k]) else entry[k]
  }

  /** The option loop; options are independent, so their order does not matter. */
  method MergeInto(entry: map<string, seq<string>>, votes: map<string, seq<string>>) returns (r: map<string, seq<string>>)
    ensures r == MergeVotes(entry, votes)
  {
    r := entry;
    var todo := votes.Keys;
    while todo != {}
      invariant todo <= votes.Keys
      invariant forall x :: x in r <==> x in entry || (x in votes && x !in todo)
      invariant forall x :: x in r ==>
        r[x] == if x in votes && x !in todo then DedupAppend(Lookup(entry, x), votes[x]) else entry[x]
      decreases |todo|
    {
      var k :| k in todo;
      var merged := PushNew(Lookup(r, k), votes[k]);
      r := r[k := merged];
      todo := todo - {k};
    }
    MergedPointwise(entry, votes, r);
  }

  /** A map that agrees with the merge at every key is the merge. */
  lemma MergedPointwise(entry: map<string, seq<string>>, votes: map<string, seq<string>>, r: map<string, seq<string>>)
    requires forall x :: x in r <==> x in entry || x in votes
    requires forall x :: x in r ==> r[x] == if x in votes then DedupAppend(Lookup(entry, x), votes[x]) else entry[x]
    ensures r == MergeVotes(entry, votes)
  {
  }

  /** A merged document in the making: option key (or `teams`) to users. */
  type Entry = map<string, seq<string>>

  /**
   * The tables filled by the first loop (utils/migrations.js:58-95): per channel and
   * timestamp the merged votes (with the `teams` member), the channels in first-seen
   * order, per channel its timestamps in first-seen order, the number of distinct
   * (channel, timestamp) pairs, and per timestamp and team the channels seen.
   */
  datatype Tally = Tally(
    table: map<string, map<string, Entry>>,
    channels: seq<string>,
    stamps: map<string, seq<string>>,
    newCount: nat,
    tableChannel: map<string, map<string, seq<string>>>)

  const EmptyTally := Tally(map[], [], map[], 0, map[])

  /** The merged entry of a (channel, timestamp) pair, or none yet. */
  function EntryOf(t: Tally, channel: string, ts: string): map<string, seq<string>> {
    if channel in t.table && ts in t.table[channel] then t.table[channel][ts] else map[]
  }

  /** `table[channel]`, or the empty object it starts as. */
  function InChannel(t: Tally, channel: string): map<string, Entry> {
    if channel in t.table then t.table[channel] else map[]
  }

  /** `table[channel][ts]`, or the `{ teams: [] }` it starts as. */
  function StartEntry(inChannel: map<string, Entry>, ts: string): Entry {
    if ts in inChannel then inChannel[ts] else map[TeamsKey := []]
  }

  /** The entry with the document's team pushed onto `teams`. */
  function WithTeam(entry: map<string, seq<string>>, team: Option<string>): map<string, seq<string>> {
    entry[TeamsKey := Lookup(entry, TeamsKey) + [TeamKey(team)]]
  }

  /** The timestamps seen so far in a channel. */
  function Known(t: Tally, channel: string): seq<string> {
    if channel in t.stamps then t.stamps[channel] else []
  }

  /** `tableChannel[ts]`, or the empty object it starts as. */
  function ByTeam(t: Tally, ts: string): map<string, seq<string>> {
    if ts in t.tableChannel then t.tableChannel[ts] else map[]
  }

  /** The merged entry of a vote document: its team and options added to what the table holds. */
  function Merged(t: Tally, r: VoteDoc): Entry {
    MergeVotes(WithTeam(StartEntry(InChannel(t, r.channel), r.ts), r.team), r.votes)
  }

  /** The tables after recording the document r with the merged entry `entry`. */
  function Record(t: Tally, r: VoteDoc, entry: Entry): Tally {
    var c := r.channel;
    var inChannel := InChannel(t, c);
    var newTs := r.ts !in inChannel;
    var byTeam := ByTeam(t, r.ts);
    Tally(
      t.table[c := inChannel[r.ts := entry]],
      if c in t.table then t.channels else t.channels + [c],
      t.stamps[c := Known(t, c) + (if newTs then [r.ts] else [])],
      t.newCount + (if newTs then 1 else 0),
      t.tableChannel[r.ts := byTeam[TeamKey(r.team) := Lookup(byTeam, TeamKey(r.team)) + [c]]])
  }

  /** One vote document added to the tables (the body of the loop at utils/migrations.js:61-95). */
  function TallyStep(t: Tally, r: VoteDoc): Tally {
    Record(t, r, Merged(t, r))
  }

  /** The tables after the documents rs, in order. */
  function TallyOf(rs: seq<VoteDoc>): Tally {
    if |rs| == 0 then EmptyTally else TallyStep(TallyOf(rs[..|rs| - 1]), rs[|rs| - 1])
  }

  /** The first loop of migration1. */
  method Tabulate(results: seq<VoteDoc>) returns (t: Tally)
    ensures t == TallyOf(results)
  {
    t := EmptyTally;
    for k := 0 to |results|
      invariant t == TallyOf(results[..k])
    {
      TakeOne(results, k);
      t := Add(t, results[k]);
    }
    TakeAll(results);
  }

  /** The body of the first loop: one document merged into the tables (utils/migrations.js:62-92). */
  method Add(t: Tally, res: VoteDoc) returns (u: Tally)
    ensures u == TallyStep(t, res)
  {
    var table, channels, stamps, newCount, tableChannel := t.table, t.channels, t.stamps, t.newCount, t.tableChannel;
    // table[channel] and table[channel][ts] are created empty when first seen
    var inChannel := if res.channel in table then table[res.channel] else map[];
    assert inChannel == InChannel(t, res.channel);
    if res.channel !in table {
      channels := channels + [res.channel];
    }
    var known := if res.channel in stamps then stamps[res.channel] else [];
    assert known == Known(t, res.channel);
    if res.ts !in inChannel {
      newCount := newCount + 1;
      known := known + [res.ts];
    }
    assert known == Known(t, res.channel) + (if res.ts !in inChannel then [res.ts] else []);
    stamps := stamps[res.channel := known];
    var votes := if res.ts in inChannel then inChannel[res.ts] else map[TeamsKey := []];
    votes := votes[TeamsKey := Lookup(votes, TeamsKey) + [TeamKey(res.team)]];
    assert votes == WithTeam(StartEntry(InChannel(t, res.channel), res.ts), res.team);
    votes := MergeInto(votes, res.votes);
    assert votes == Merged(t, res);
    table := table[res.channel := inChannel[res.ts := votes]];
    var byTeam := if res.ts in tableChannel then tableChannel[res.ts] else map[];
    assert byTeam == ByTeam(t, res.ts);
    var seen := if TeamKey(res.team) in byTeam then byTeam[TeamKey(res.team)] else [];
    tableChannel := tableChannel[res.ts := byTeam[TeamKey(res.team) := seen + [res.channel]]];
    u := Tally(table, channels, stamps, newCount, tableChannel);
    ghost var expected := Record(t, res, votes);
    assert table == expected.table;
    assert channels == expected.channels;
    assert stamps == expected.stamps;
    assert newCount == expected.newCount;
    assert tableChannel == expected.tableChannel;
  }

  /** A migrated document: no team, and the merged votes without `teams` (utils/migrations.js:107-113). */
  function MergedDoc(t: Tally, channel: string, ts: string): VoteDoc {
    VoteDoc(None, channel, ts, EntryOf(t, channel, ts) - {TeamsKey})
  }

  /** The documents of one channel, for its timestamps ks. */
  function ChannelDocs(t: Tally, channel: string, ks: seq<string>): seq<VoteDoc> {
    if |ks| == 0 then [] else ChannelDocs(t, channel, ks[..|ks| - 1]) + [MergedDoc(t, channel, ks[|ks| - 1])]
  }

  /** The documents of the channels cs, each with its timestamps in first-seen order. */
  function DocsOver(t: Tally, cs: seq<string>): seq<VoteDoc> {
    if |cs| == 0 then [] else DocsOver(t, cs[..|cs| - 1]) + ChannelDocs(t, cs[|cs| - 1], Known(t, cs[|cs| - 1]))
  }

  /** The new vote documents (utils/migrations.js:103-118). */
  function VoteData(t: Tally): seq<VoteDoc> {
    DocsOver(t, t.channels)
  }

  /** The second loop of migration1: one document per channel and timestamp of the table. */
  method Flatten(t: Tally) returns (data: seq<VoteDoc>)
    ensures data == VoteData(t)
  {
    data := [];
    for a := 0 to |t.channels|
      invariant data == DocsOver(t, t.channels[..a])
    {
      assert t.channels[..a + 1][..a] == t.channels[..a];
      var channel := t.channels[a];
      var stamps := Known(t, channel);
      ghost var before := data;
      for b := 0 to |stamps|
        invariant data == before + ChannelDocs(t, channel, stamps[..b])
      {
        assert stamps[..b + 1][..b] == stamps[..b];
        var votes := EntryOf(t, channel, stamps[b]);
        votes := votes - {TeamsKey};
        data := data + [VoteDoc(None, channel, stamps[b], votes)];
      }
      assert stamps[..|stamps|] == stamps;
    }
    assert t.channels[..|t.channels|] == t.channels;
  }

  /** A closed document can be re-keyed when its (timestamp, team) was seen among the votes. */
  predicate Resolved(tableChannel: map<string, map<string, seq<string>>>, d: ClosedDoc) {
    d.ts in tableChannel && TeamKey(d.team) in tableChannel[d.ts]
  }

  /** The re-keyed document: the channels recorded for its (timestamp, team), no team. */
  function Rekeyed(tableChannel: map<string, map<string, seq<string>>>, d: ClosedDoc): ClosedDoc
    requires Resolved(tableChannel, d)
  {
    ClosedDoc(None, Some(tableChannel[d.ts][TeamKey(d.team)]), d.ts, d.closed)
  }

  /** A closed document as read: only its team, timestamp and flag (utils/migrations.js:133-135). */
  function Projected(d: ClosedDoc): ClosedDoc {
    d.(channel := None)
  }

  /** The re-keyed closed documents (utils/migrations.js:145-161). */
  function ClosedData(tableChannel: map<string, map<string, seq<string>>>, docs: seq<ClosedDoc>): seq<ClosedDoc> {
    if |docs| == 0 then []
    else
      var d := docs[|docs| - 1];
      ClosedData(tableChannel, docs[..|docs| - 1])
      + (if Resolved(tableChannel, Projected(d)) then [Rekeyed(tableChannel, Projected(d))] else [])
  }

  /** The closed documents that cannot be re-keyed, as read. */
  function ClosedErrors(tableChannel: map<string, map<string, seq<string>>>, docs: seq<ClosedDoc>): seq<ClosedDoc> {
    if |docs| == 0 then []
    else
      var d := docs[|docs| - 1];
      ClosedErrors(tableChannel, docs[..|docs| - 1]) + (if Resolved(tableChannel, Projected(d)) then [] else [Projected(d)])
  }

  /** The closed loop of migration1. */
  method Partition(tableChannel: map<string, map<string, seq<string>>>, results: seq<ClosedDoc>)
    returns (data: seq<ClosedDoc>, errors: seq<ClosedDoc>)
    ensures data == ClosedData(tableChannel, results) && errors == ClosedErrors(tableChannel, results)
  {
    data := [];
    errors := [];
    for k := 0 to |results|
      invariant data == ClosedData(tableChannel, results[..k]) && errors == ClosedErrors(tableChannel, results[..k])
    {
      TakeOne(results, k);
      var res := Projected(results[k]);
      if res.ts in tableChannel && TeamKey(res.team) in tableChannel[res.ts] {
        var channel := tableChannel[res.ts][TeamKey(res.team)];
        data := data + [ClosedDoc(None, Some(channel), res.ts, res.closed)];
      } else {
        errors := errors + [res];
      }
    }
    assert results[..|results|] == results;
  }

  // ----- What the first loop records -----

  /** Some document of rs has this channel and timestamp. */
  ghost predicate Seen(rs: seq<VoteDoc>, channel: string, ts: string) {
    exists i :: 0 <= i < |rs| && rs[i].channel == channel && rs[i].ts == ts
  }

  /** The table has an entry for this channel and timestamp. */
  predicate HasEntry(t: Tally, channel: string, ts: string) {
    channel in t.table && ts in t.table[channel]
  }

  /** The number of timestamps recorded for the channels cs. */
  function SumKnown(t: Tally, cs: seq<string>): nat {
    if |cs| == 0 then 0 else SumKnown(t, cs[..|cs| - 1]) + |Known(t, cs[|cs| - 1])|
  }

  /**
   * The bookkeeping agrees with the table: the channel list and the per-channel
   * timestamp lists, without repeats, list exactly the table's keys, and newCount
   * counts the timestamps.
   */
  ghost predicate TallyValid(t: Tally) {
    ChannelsValid(t) && StampsValid(t) && t.newCount == SumKnown(t, t.channels)
  }

  /** The channel list names each channel of the table once. */
  ghost predicate ChannelsValid(t: Tally) {
    NoDup(t.channels) && forall c :: c in t.channels <==> c in t.table
  }

  /** Each channel's timestamp list names each of its entries once. */
  ghost predicate StampsValid(t: Tally) {
    && (forall c :: c in t.stamps <==> c in t.table)
    && (forall c :: c in t.table ==> NoDup(Known(t, c)))
    && (forall c, ts :: ts in Known(t, c) <==> HasEntry(t, c, ts))
  }

  lemma {:induction false} SumKnownFrame(t: Tally, u: Tally, cs: seq<string>)
    requires forall c :: c in cs ==> Known(t, c) == Known(u, c)
    ensures SumKnown(t, cs) == SumKnown(u, cs)
  {
    if |cs| > 0 {
      SumKnownFrame(t, u, cs[..|cs| - 1]);
    }
  }

  lemma {:induction false} SumKnownBump(t: Tally, u: Tally, cs: seq<string>, c: string, ts: string)
    requires NoDup(cs) && c in cs
    requires Known(u, c) == Known(t, c) + [ts]
    requires forall x :: x in cs && x != c ==> Known(t, x) == Known(u, x)
    ensures SumKnown(u, cs) == SumKnown(t, cs) + 1
  {
    var init := cs[..|cs| - 1];
    if cs[|cs| - 1] == c {
      SumKnownFrame(t, u, init);
    } else {
      assert c in init by {
        var i :| 0 <= i < |cs| && cs[i] == c;
        assert init[i] == c;
      }
      SumKnownBump(t, u, init, c, ts);
    }
  }

  /** Appending a new element keeps a list free of repeats. */
  lemma NoDupSnoc(s: seq<string>, x: string)
    requires NoDup(s) && x !in s
    ensures NoDup(s + [x])
  {
    forall i, j | 0 <= i < j < |s + [x]|
      ensures (s + [x])[i] != (s + [x])[j]
    {
      if j == |s| {
        assert (s + [x])[i] == s[i];
      }
    }
  }

  /** Recording a document changes nothing about the other channels. */
  lemma RecordFrame(t: Tally, r: VoteDoc, entry: Entry)
    ensures var u := Record(t, r, entry);
      && (forall x :: x != r.channel ==> Known(u, x) == Known(t, x))
      && (forall x, ts :: x != r.channel ==> (HasEntry(u, x, ts) <==> HasEntry(t, x, ts)))
      && (forall x :: x in u.table <==> x in t.table || x == r.channel)
      && (forall x :: x in u.stamps <==> x in t.stamps || x == r.channel)
      && (forall ts :: HasEntry(u, r.channel, ts) <==> HasEntry(t, r.channel, ts) || ts == r.ts)
  {
  }

  lemma RecordChannelsValid(t: Tally, r: VoteDoc, entry: Entry)
    requires ChannelsValid(t)
    ensures ChannelsValid(Record(t, r, entry))
  {
    if r.channel !in t.table {
      NoDupSnoc(t.channels, r.channel);
    }
  }

  lemma RecordStampsValid(t: Tally, r: VoteDoc, entry: Entry)
    requires StampsValid(t)
    ensures StampsValid(Record(t, r, entry))
  {
    var u := Record(t, r, entry);
    var c := r.channel;
    RecordFrame(t, r, entry);
    if c !in t.table {
      assert c !in t.stamps;
      assert Known(u, c) == [r.ts];
    } else if r.ts !in t.table[c] {
      assert r.ts !in Known(t, c);
      NoDupSnoc(Known(t, c), r.ts);
      assert Known(u, c) == Known(t, c) + [r.ts];
    } else {
      assert Known(u, c) == Known(t, c);
    }
  }

  lemma RecordCountValid(t: Tally, r: VoteDoc, entry: Entry)
    requires TallyValid(t)
    ensures var u := Record(t, r, entry); u.newCount == SumKnown(u, u.channels)
  {
    var u := Record(t, r, entry);
    var c := r.channel;
    RecordFrame(t, r, entry);
    if c !in t.table {
      assert c !in t.stamps && c !in t.channels;
      SumKnownFrame(t, u, t.channels);
      SnocParts(t.channels, c);
      assert Known(u, c) == [r.ts];
    } else if r.ts !in t.table[c] {
      assert r.ts !in Known(t, c);
      SumKnownBump(t, u, t.channels, c, r.ts);
    } else {
      assert Known(u, c) == Known(t, c);
      SumKnownFrame(t, u, t.channels);
    }
  }

  /** Recording a document keeps the bookkeeping consistent, whatever the merged entry. */
  lemma RecordValid(t: Tally, r: VoteDoc, entry: Entry)
    requires TallyValid(t)
    ensures TallyValid(Record(t, r, entry))
  {
    RecordChannelsValid(t, r, entry);
    RecordStampsValid(t, r, entry);
    RecordCountValid(t, r, entry);
  }

  /** The tables after any input are consistent. */
  lemma {:induction false} TallyOfValid(rs: seq<VoteDoc>)
    ensures TallyValid(TallyOf(rs))
  {
    if |rs| > 0 {
      TallyOfValid(rs[..|rs| - 1]);
      var t := TallyOf(rs[..|rs| - 1]);
      RecordValid(t, rs[|rs| - 1], Merged(t, rs[|rs| - 1]));
    }
  }

  /** Recording one more document adds its pair to the table's entries. */
  lemma RecordSeen(t: Tally, rs: seq<VoteDoc>, r: VoteDoc, entry: Entry, channel: string, ts: string)
    requires HasEntry(t, channel, ts) <==> Seen(rs, channel, ts)
    ensures HasEntry(Record(t, r, entry), channel, ts) <==> Seen(rs + [r], channel, ts)
  {
    RecordFrame(t, r, entry);
    SeenSnoc(rs, r, channel, ts);
  }

  lemma SeenSnoc(rs: seq<VoteDoc>, r: VoteDoc, channel: string, ts: string)
    ensures Seen(rs + [r], channel, ts) <==> Seen(rs, channel, ts) || (r.channel == channel && r.ts == ts)
  {
    var rs' := rs + [r];
    if Seen(rs, channel, ts) {
      var i :| 0 <= i < |rs| && rs[i].channel == channel && rs[i].ts == ts;
      assert rs'[i] == rs[i];
    }
    if Seen(rs', channel, ts) && !(r.channel == channel && r.ts == ts) {
      var i :| 0 <= i < |rs'| && rs'[i].channel == channel && rs'[i].ts == ts;
      assert i < |rs| && rs[i] == rs'[i];
    }
    if r.channel == channel && r.ts == ts {
      assert rs'[|rs|] == r;
    }
  }

  /** The table has an entry for exactly the (channel, timestamp) pairs of the input. */
  lemma {:induction false} TallyOfSeen(rs: seq<VoteDoc>, channel: string, ts: string)
    ensures HasEntry(TallyOf(rs), channel, ts) <==> Seen(rs, channel, ts)
  {
    if |rs| > 0 {
      var init := rs[..|rs| - 1];
      var t := TallyOf(init);
      TallyOfSeen(init, channel, ts);
      RecordSeen(t, init, rs[|rs| - 1], Merged(t, rs[|rs| - 1]), channel, ts);
      SnocLast(rs);
    }
  }

  /** Some document of rs with this channel and timestamp has the option k. */
  ghost predicate HasOption(rs: seq<VoteDoc>, channel: string, ts: string, k: string) {
    exists i :: 0 <= i < |rs| && rs[i].channel == channel && rs[i].ts == ts && k in rs[i].votes
  }

  /** The voters of option k over the documents of rs with this channel and timestamp, in order. */
  function VotersOf(rs: seq<VoteDoc>, channel: string, ts: string, k: string): seq<string> {
    if |rs| == 0 then []
    else
      var r := rs[|rs| - 1];
      VotersOf(rs[..|rs| - 1], channel, ts, k)
      + (if r.channel == channel && r.ts == ts && k in r.votes then r.votes[k] else [])
  }

  /** Recording a document replaces only its own entry. */
  lemma RecordEntry(t: Tally, r: VoteDoc, entry: Entry, channel: string, ts: string)
    ensures EntryOf(Record(t, r, entry), channel, ts)
      == if r.channel == channel && r.ts == ts then entry else EntryOf(t, channel, ts)
  {
  }

  /** An option of a merged entry, against the entry it was merged into. */
  lemma MergedOption(t: Tally, r: VoteDoc, k: string)
    requires k != TeamsKey
    ensures var e := Merged(t, r);
      var before := EntryOf(t, r.channel, r.ts);
      && (k in e <==> k in before || k in r.votes)
      && Lookup(e, k) == if k in r.votes then DedupAppend(Lookup(before, k), r.votes[k]) else Lookup(before, k)
  {
  }

  lemma HasOptionSnoc(rs: seq<VoteDoc>, r: VoteDoc, channel: string, ts: string, k: string)
    ensures HasOption(rs + [r], channel, ts, k)
      <==> HasOption(rs, channel, ts, k) || (r.channel == channel && r.ts == ts && k in r.votes)
  {
    var rs' := rs + [r];
    if HasOption(rs, channel, ts, k) {
      var i :| 0 <= i < |rs| && rs[i].channel == channel && rs[i].ts == ts && k in rs[i].votes;
      assert rs'[i] == rs[i];
    }
    if HasOption(rs', channel, ts, k) && !(r.channel == channel && r.ts == ts && k in r.votes) {
      var i :| 0 <= i < |rs'| && rs'[i].channel == channel && rs'[i].ts == ts && k in rs'[i].votes;
      assert i < |rs| && rs[i] == rs'[i];
    }
    if r.channel == channel && r.ts == ts && k in r.votes {
      assert rs'[|rs|] == r;
    }
  }

  /** One step of the option invariant, for any entry that merges like Merged. */
  lemma RecordOption(t: Tally, rs: seq<VoteDoc>, r: VoteDoc, entry: Entry, channel: string, ts: string, k: string)
    requires k != TeamsKey
    requires k in EntryOf(t, channel, ts) <==> HasOption(rs, channel, ts, k)
    requires Lookup(EntryOf(t, channel, ts), k) == DedupAppend([], VotersOf(rs, channel, ts, k))
    requires var before := EntryOf(t, r.channel, r.ts);
      && (k in entry <==> k in before || k in r.votes)
      && Lookup(entry, k) == if k in r.votes then DedupAppend(Lookup(before, k), r.votes[k]) else Lookup(before, k)
    ensures var after := EntryOf(Record(t, r, entry), channel, ts);
      && (k in after <==> HasOption(rs + [r], channel, ts, k))
      && Lookup(after, k) == DedupAppend([], VotersOf(rs + [r], channel, ts, k))
  {
    RecordEntry(t, r, entry, channel, ts);
    HasOptionSnoc(rs, r, channel, ts, k);
    SnocParts(rs, r);
    var here := r.channel == channel && r.ts == ts && k in r.votes;
    var old_ := VotersOf(rs, channel, ts, k);
    if here {
      assert VotersOf(rs + [r], channel, ts, k) == old_ + r.votes[k];
      DedupAppendConcat([], old_, r.votes[k]);
    } else {
      assert VotersOf(rs + [r], channel, ts, k) == old_ + [];
      assert old_ + [] == old_;
    }
  }

  /**
   * Every option other than `teams` of a merged entry: present iff some document with
   * that channel and timestamp has it, and its voters are those documents' voters
   * without repeats, in first-seen order (utils/migrations.js:73-83).
   */
  lemma {:induction false} EntryVoters(rs: seq<VoteDoc>, channel: string, ts: string, k: string)
    requires k != TeamsKey
    ensures var e := EntryOf(TallyOf(rs), channel, ts);
      && (k in e <==> HasOption(rs, channel, ts, k))
      && Lookup(e, k) == DedupAppend([], VotersOf(rs, channel, ts, k))
  {
    if |rs| > 0 {
      var init := rs[..|rs| - 1];
      var r := rs[|rs| - 1];
      var t := TallyOf(init);
      EntryVoters(init, channel, ts, k);
      MergedOption(t, r, k);
      RecordOption(t, init, r, Merged(t, r), channel, ts, k);
      SnocLast(rs);
    }
  }

  /** Some document of rs has this timestamp and team key. */
  ghost predicate SeenTeam(rs: seq<VoteDoc>, ts: string, team: string) {
    exists i :: 0 <= i < |rs| && rs[i].ts == ts && TeamKey(rs[i].team) == team
  }

  /** The channels of the documents of rs with this timestamp and team key, in order. */
  function ChannelsOf(rs: seq<VoteDoc>, ts: string, team: string): seq<string> {
    if |rs| == 0 then []
    else
      var r := rs[|rs| - 1];
      ChannelsOf(rs[..|rs| - 1], ts, team) + (if r.ts == ts && TeamKey(r.team) == team then [r.channel] else [])
  }

  /** `tableChannel` has a list for this timestamp and team. */
  predicate HasTeam(t: Tally, ts: string, team: string) {
    ts in t.tableChannel && team in t.tableChannel[ts]
  }

  /** Recording a document appends its channel to the list of its own timestamp and team only. */
  lemma RecordByTeam(t: Tally, r: VoteDoc, entry: Entry, ts: string, team: string)
    ensures var u := Record(t, r, entry);
      && (HasTeam(u, ts, team) <==> HasTeam(t, ts, team) || (r.ts == ts && TeamKey(r.team) == team))
      && Lookup(ByTeam(u, ts), team)
         == Lookup(ByTeam(t, ts), team) + (if r.ts == ts && TeamKey(r.team) == team then [r.channel] else [])
  {
  }

  /** One step of the channel-list invariant. */
  lemma RecordChannels(t: Tally, rs: seq<VoteDoc>, r: VoteDoc, entry: Entry, ts: string, team: string)
    requires HasTeam(t, ts, team) <==> SeenTeam(rs, ts, team)
    requires Lookup(ByTeam(t, ts), team) == ChannelsOf(rs, ts, team)
    ensures var u := Record(t, r, entry);
      && (HasTeam(u, ts, team) <==> SeenTeam(rs + [r], ts, team))
      && Lookup(ByTeam(u, ts), team) == ChannelsOf(rs + [r], ts, team)
  {
    RecordByTeam(t, r, entry, ts, team);
    var rs' := rs + [r];
    SnocParts(rs, r);
    assert ChannelsOf(rs', ts, team)
      == ChannelsOf(rs, ts, team) + (if r.ts == ts && TeamKey(r.team) == team then [r.channel] else []);
    SeenTeamSnoc(rs, r, ts, team);
  }

  lemma SeenTeamSnoc(rs: seq<VoteDoc>, r: VoteDoc, ts: string, team: string)
    ensures SeenTeam(rs + [r], ts, team) <==> SeenTeam(rs, ts, team) || (r.ts == ts && TeamKey(r.team) == team)
  {
    var rs' := rs + [r];
    if SeenTeam(rs, ts, team) {
      var i :| 0 <= i < |rs| && rs[i].ts == ts && TeamKey(rs[i].team) == team;
      assert rs'[i] == rs[i];
    }
    if SeenTeam(rs', ts, team) && !(r.ts == ts && TeamKey(r.team) == team) {
      var i :| 0 <= i < |rs'| && rs'[i].ts == ts && TeamKey(rs'[i].team) == team;
      assert i < |rs| && rs[i] == rs'[i];
    }
    if r.ts == ts && TeamKey(r.team) == team {
      assert rs'[|rs|] == r;
    }
  }

  /**
   * `tableChannel[ts][team]` exists iff some vote document has that timestamp and team
   * key, and lists the channels of those documents in order (utils/migrations.js:86-92).
   */
  lemma {:induction false} TableChannelOf(rs: seq<VoteDoc>, ts: string, team: string)
    ensures var t := TallyOf(rs);
      && (HasTeam(t, ts, team) <==> SeenTeam(rs, ts, team))
      && Lookup(ByTeam(t, ts), team) == ChannelsOf(rs, ts, team)
  {
    if |rs| > 0 {
      var init := rs[..|rs| - 1];
      var r := rs[|rs| - 1];
      var t := TallyOf(init);
      TableChannelOf(init, ts, team);
      RecordChannels(t, init, r, Merged(t, r), ts, team);
      SnocLast(rs);
    }
  }

  // ----- The migrated vote documents -----

  /** No two documents share a (channel, timestamp) pair. */
  predicate DistinctPairs(ds: seq<VoteDoc>) {
    forall i, j :: 0 <= i < j < |ds| ==> ds[i].channel != ds[j].channel || ds[i].ts != ds[j].ts
  }

  lemma {:induction false} ChannelDocsAt(t: Tally, channel: string, ks: seq<string>)
    ensures |ChannelDocs(t, channel, ks)| == |ks|
    ensures forall i :: 0 <= i < |ks| ==> ChannelDocs(t, channel, ks)[i] == MergedDoc(t, channel, ks[i])
  {
    if |ks| > 0 {
      ChannelDocsAt(t, channel, ks[..|ks| - 1]);
    }
  }

  /** The documents of the channels cs: one per recorded timestamp of each, and no other. */
  lemma {:induction false} DocsOverMembers(t: Tally, cs: seq<string>)
    ensures |DocsOver(t, cs)| == SumKnown(t, cs)
    ensures forall d :: d in DocsOver(t, cs) ==>
      d.channel in cs && d.ts in Known(t, d.channel) && d == MergedDoc(t, d.channel, d.ts)
    ensures forall c, ts :: c in cs && ts in Known(t, c) ==> MergedDoc(t, c, ts) in DocsOver(t, cs)
  {
    if |cs| > 0 {
      var init := cs[..|cs| - 1];
      var c := cs[|cs| - 1];
      DocsOverMembers(t, init);
      ChannelDocsAt(t, c, Known(t, c));
      var tail := ChannelDocs(t, c, Known(t, c));
      forall x, ts | x in cs && ts in Known(t, x)
        ensures MergedDoc(t, x, ts) in DocsOver(t, cs)
      {
        if x == c {
          var i :| 0 <= i < |Known(t, c)| && Known(t, c)[i] == ts;
          assert tail[i] == MergedDoc(t, x, ts);
        } else {
          assert x in init by {
            var i :| 0 <= i < |cs| && cs[i] == x;
            assert init[i] == x;
          }
        }
      }
    }
  }

  /** When no channel and no channel's timestamp repeats, no (channel, timestamp) pair repeats. */
  lemma {:induction false} DocsOverDistinct(t: Tally, cs: seq<string>)
    requires NoDup(cs)
    requires forall c :: c in cs ==> NoDup(Known(t, c))
    ensures DistinctPairs(DocsOver(t, cs))
  {
    if |cs| > 0 {
      var init := cs[..|cs| - 1];
      var c := cs[|cs| - 1];
      DocsOverDistinct(t, init);
      DocsOverMembers(t, init);
      ChannelDocsAt(t, c, Known(t, c));
      var head := DocsOver(t, init);
      var tail := ChannelDocs(t, c, Known(t, c));
      var all: seq<VoteDoc> := head + tail;
      assert DocsOver(t, cs) == all;
      forall i, j | 0 <= i < j < |all|
        ensures all[i].channel != all[j].channel || all[i].ts != all[j].ts
      {
        if j < |head| {
          assert all[i] == head[i] && all[j] == head[j];
        } else if i < |head| {
          assert all[i] == head[i] && head[i] in head;
          assert all[j] == tail[j - |head|];
          assert head[i].channel in init;
          assert c !in init;
        } else {
          assert all[i] == tail[i - |head|] && all[j] == tail[j - |head|];
        }
      }
    }
  }

  /**
   * The migrated vote documents: exactly one per distinct (channel, timestamp) pair of
   * the input, so as many as newCount counts, none when the input is empty, each
   * without a team and without the `teams` member (utils/migrations.js:66-69, 103-118).
   */
  lemma VotesMigrated(rs: seq<VoteDoc>)
    ensures var t := TallyOf(rs);
      var data := VoteData(t);
      && |data| == t.newCount
      && DistinctPairs(data)
      && (|data| == 0 <==> |rs| == 0)
      && (forall d :: d in data ==>
            && d.team == None && TeamsKey !in d.votes
            && Seen(rs, d.channel, d.ts) && d == MergedDoc(t, d.channel, d.ts))
      && (forall c, ts :: Seen(rs, c, ts) ==> MergedDoc(t, c, ts) in data)
  {
    var t := TallyOf(rs);
    TallyOfValid(rs);
    DocsOverMembers(t, t.channels);
    DocsOverDistinct(t, t.channels);
    forall c, ts
      ensures HasEntry(t, c, ts) <==> Seen(rs, c, ts)
    {
      TallyOfSeen(rs, c, ts);
    }
    if |rs| > 0 {
      assert Seen(rs, rs[0].channel, rs[0].ts);
      assert MergedDoc(t, rs[0].channel, rs[0].ts) in VoteData(t);
    }
  }

  /**
   * An option of a migrated document is any option but `teams` that one of its input
   * documents has, and its voters are theirs merged, each once, in first-seen order
   * (utils/migrations.js:73-83, 108).
   */
  lemma MigratedVoters(rs: seq<VoteDoc>, d: VoteDoc, k: string)
    requires d in VoteData(TallyOf(rs))
    ensures k in d.votes <==> k != TeamsKey && HasOption(rs, d.channel, d.ts, k)
    ensures k in d.votes ==>
      && d.votes[k] == DedupAppend([], VotersOf(rs, d.channel, d.ts, k))
      && NoDup(d.votes[k])
      && (forall x :: x in d.votes[k] <==> x in VotersOf(rs, d.channel, d.ts, k))
  {
    VotesMigrated(rs);
    if k != TeamsKey {
      EntryVoters(rs, d.channel, d.ts, k);
      DedupAppendSpec([], VotersOf(rs, d.channel, d.ts, k));
    }
  }

  // ----- The migrated closed documents -----

  lemma {:induction false} ClosedPartition(tableChannel: map<string, map<string, seq<string>>>, docs: seq<ClosedDoc>)
    ensures |ClosedData(tableChannel, docs)| + |ClosedErrors(tableChannel, docs)| == |docs|
    ensures forall x :: x in ClosedErrors(tableChannel, docs) <==>
      exists i :: 0 <= i < |docs| && !Resolved(tableChannel, Projected(docs[i])) && x == Projected(docs[i])
    ensures forall x :: x in ClosedData(tableChannel, docs) <==>
      exists i :: 0 <= i < |docs| && Resolved(tableChannel, Projected(docs[i])) && x == Rekeyed(tableChannel, Projected(docs[i]))
  {
    if |docs| > 0 {
      var init := docs[..|docs| - 1];
      ClosedPartition(tableChannel, init);
      forall i | 0 <= i < |init|
        ensures init[i] == docs[i]
      {
      }
      var last := |docs| - 1;
      forall x | x in ClosedErrors(tableChannel, docs)
        ensures exists i :: 0 <= i < |docs| && !Resolved(tableChannel, Projected(docs[i])) && x == Projected(docs[i])
      {
        if x !in ClosedErrors(tableChannel, init) {
          assert !Resolved(tableChannel, Projected(docs[last])) && x == Projected(docs[last]);
        }
      }
      forall x | x in ClosedData(tableChannel, docs)
        ensures exists i :: 0 <= i < |docs| && Resolved(tableChannel, Projected(docs[i])) && x == Rekeyed(tableChannel, Projected(docs[i]))
      {
        if x !in ClosedData(tableChannel, init) {
          assert Resolved(tableChannel, Projected(docs[last])) && x == Rekeyed(tableChannel, Projected(docs[last]));
        }
      }
    }
  }

  /**
   * A closed document is re-keyed iff some vote document had its timestamp and team
   * key, and then carries the channels of those documents (utils/migrations.js:145-158).
   */
  lemma ClosedResolved(rs: seq<VoteDoc>, d: ClosedDoc)
    ensures var tc := TallyOf(rs).tableChannel;
      && (Resolved(tc, Projected(d)) <==> SeenTeam(rs, d.ts, TeamKey(d.team)))
      && (Resolved(tc, Projected(d)) ==> Rekeyed(tc, Projected(d)).channel == Some(ChannelsOf(rs, d.ts, TeamKey(d.team))))
  {
    TableChannelOf(rs, d.ts, TeamKey(d.team));
  }
}
