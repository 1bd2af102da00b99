/**
 * The v3 migration script (scripts/migrate-v3.js): the old JSON configuration holds
 * votes nested as team -> channel -> timestamp -> votes, and closed flags nested as
 * team -> timestamp -> flag under `polls.closed`; the script flattens both into lists
 * of records, and the token object into the list of its values. `Object.keys` and
 * `Object.values` throw on `null` and `undefined`, and a throw ends the script.
 */
module MigrateV3 {
  import opened Wrappers
  import opened JsText

  /** A parsed JSON value; an object keeps its fields in key order. */
  datatype Json = Null | Bool(b: bool) | Num(literal: string) | Str(s: string) | Arr(items: seq<Json>) | Obj(fields: seq<Field>)
  datatype Field = Field(key: string, value: Json)

  /** The keys of a string's characters or an array's elements: their indexes as text. */
  function IndexKeys(n: nat): (ks: seq<string>)
    ensures |ks| == n && forall i :: 0 <= i < n ==> ks[i] == NatToString(i)
  {
    seq(n, i requires 0 <= i < n => NatToString(i))
  }

  /** Distinct indexes have distinct texts. */
  lemma IndexTextInjective(a: nat, b: nat)
    requires NatToString(a) == NatToString(b)
    ensures a == b
  {
    DecimalValue(a);
    DecimalValue(b);
  }

  /** The index below n whose text is k, if any. */
  function IndexOfKey(k: string, n: nat): (r: Option<nat>)
    ensures r.Some? ==> r.value < n
  {
    if n == 0 then None
    else if NatToString(n - 1) == k then Some(n - 1)
    else IndexOfKey(k, n - 1)
  }

  /** IndexOfKey finds an index whose text is k, and finds none only when there is none. */
  lemma {:induction false} IndexOfKeyFinds(k: string, n: nat)
    ensures IndexOfKey(k, n).Some? ==> NatToString(IndexOfKey(k, n).value) == k
    ensures IndexOfKey(k, n).None? ==> forall i :: 0 <= i < n ==> NatToString(i) != k
  {
    if n > 0 && NatToString(n - 1) != k {
      IndexOfKeyFinds(k, n - 1);
    }
  }

  /** The text of an index below n leads back to that index. */
  lemma IndexOfKeyAt(i: nat, n: nat)
    requires i < n
    ensures IndexOfKey(NatToString(i), n) == Some(i)
  {
    IndexOfKeyFinds(NatToString(i), n);
    IndexTextInjective(IndexOfKey(NatToString(i), n).value, i);
  }

  /**
   * The own enumerable keys of a value: an object's field names, the indexes of a
   * string's characters or an array's elements, and none for the other values.
   */
  function OwnKeys(j: Json): seq<string> {
    match j
    case Obj(fields) => seq(|fields|, i requires 0 <= i < |fields| => fields[i].key)
    case Str(s) => IndexKeys(|s|)
    case Arr(items) => IndexKeys(|items|)
    case _ => []
  }

  /** `Object.keys`: it throws (None) on `null`, and lists the own keys of anything else. */
  function Keys(j: Json): (ks: Option<seq<string>>)
    ensures ks.None? <==> j.Null?
    ensures ks.Some? ==> ks.value == OwnKeys(j)
  {
    if j.Null? then None else Some(OwnKeys(j))
  }

  /**
   * `Object.values`: it throws (None) on `null`; it lists an object's field values, a
   * string's characters as one-character strings, an array's elements, and nothing for
   * a boolean or a number.
   */
  function Values(j: Json): (vs: Option<seq<Json>>)
    ensures vs.None? <==> j.Null?
    ensures vs.Some? ==> |vs.value| == |OwnKeys(j)|
    ensures j.Obj? ==> forall i :: 0 <= i < |j.fields| ==> vs.value[i] == j.fields[i].value
    ensures j.Str? ==> forall i :: 0 <= i < |j.s| ==> vs.value[i] == Str([j.s[i]])
    ensures j.Arr? ==> vs.value == j.items
  {
    match j
    case Null => None
    case Obj(fields) => Some(seq(|fields|, i requires 0 <= i < |fields| => fields[i].value))
    case Str(s) => Some(seq(|s|, i requires 0 <= i < |s| => Str([s[i]])))
    case Arr(items) => Some(items)
    case _ => Some([])
  }

  /** The value of the first field named k. */
  function FindField(fields: seq<Field>, k: string): (r: Option<Json>)
    ensures r.Some? <==> exists i :: 0 <= i < |fields| && fields[i].key == k
  {
    if |fields| == 0 then None
    else if fields[0].key == k then Some(fields[0].value)
    else
      var r := FindField(fields[1..], k);
      assert forall i :: 1 <= i < |fields| ==> fields[i] == fields[1..][i - 1];
      r
  }

  /**
   * `j[k]` for an own key k, None (`undefined`) otherwise. A string's member at an
   * index is its character there. JavaScript throws on a member of `null`; the callers
   * test for `null` first.
   */
  function Get(j: Json, k: string): Option<Json> {
    match j
    case Obj(fields) => FindField(fields, k)
    case Str(s) => (match IndexOfKey(k, |s|) case Some(i) => Some(Str([s[i]])) case None => None)
    case Arr(items) => (match IndexOfKey(k, |items|) case Some(i) => Some(items[i]) case None => None)
    case _ => None
  }

  /** The member reached through one of j's own keys, which is never `undefined`. */
  function Child(j: Json, k: string): Json {
    Get(j, k).GetOr(Null)
  }

  /** A parsed JSON object never repeats a key. */
  predicate DistinctKeys(j: Json) {
    j.Obj? ==> forall i, k :: 0 <= i < k < |j.fields| ==> j.fields[i].key != j.fields[k].key
  }

  /** Every object in the value has distinct keys. */
  predicate Proper(j: Json) {
    && DistinctKeys(j)
    && (j.Obj? ==> forall i :: 0 <= i < |j.fields| ==> Proper(j.fields[i].value))
    && (j.Arr? ==> forall i :: 0 <= i < |j.items| ==> Proper(j.items[i]))
  }

  /** With distinct keys, a key's member is the value of its field. */
  lemma {:induction false} FindFieldAt(fields: seq<Field>, i: nat)
    requires i < |fields|
    requires forall a, b :: 0 <= a < b < |fields| ==> fields[a].key != fields[b].key
    ensures FindField(fields, fields[i].key) == Some(fields[i].value)
  {
    if i > 0 {
      assert fields[0].key != fields[i].key;
      FindFieldAt(fields[1..], i - 1);
    }
  }

  /** The member at the i-th own key of a value with distinct keys. */
  lemma GetAt(j: Json, i: nat)
    requires DistinctKeys(j) && i < |OwnKeys(j)|
    ensures Get(j, OwnKeys(j)[i]) == Some(
      match j case Obj(fields) => fields[i].value case Str(s) => Str([s[i]]) case Arr(items) => items[i] case _ => Null)
  {
    match j
    case Obj(fields) => FindFieldAt(fields, i);
    case Str(s) => IndexOfKeyAt(i, |s|);
    case Arr(items) => IndexOfKeyAt(i, |items|);
  }

  /** A value with distinct keys lists no key twice. */
  lemma DistinctKeysStrings(j: Json)
    requires DistinctKeys(j)
    ensures NoDup(OwnKeys(j))
  {
    if j.Str? || j.Arr? {
      forall a, b | 0 <= a < b < |OwnKeys(j)|
        ensures OwnKeys(j)[a] != OwnKeys(j)[b]
      {
        if OwnKeys(j)[a] == OwnKeys(j)[b] {
          IndexTextInjective(a, b);
        }
      }
    }
  }

  /** A member found in a proper value is proper. */
  lemma GetProper(j: Json, k: string)
    requires Proper(j) && Get(j, k).Some?
    ensures Proper(Get(j, k).value)
  {
    if j.Obj? {
      var i :| 0 <= i < |j.fields| && j.fields[i].key == k;
      FindFieldAt(j.fields, i);
    }
  }

  /** Every member of a proper value is proper. */
  lemma ChildProper(j: Json, k: string)
    requires Proper(j) && k in OwnKeys(j)
    ensures Proper(Child(j, k))
  {
    var i :| 0 <= i < |OwnKeys(j)| && OwnKeys(j)[i] == k;
    GetAt(j, i);
  }

  /** With distinct keys, `Object.values` lists each key's member, in key order. */
  lemma ValuesAreMembers(j: Json)
    requires DistinctKeys(j) && !j.Null?
    ensures |Values(j).value| == |OwnKeys(j)|
    ensures forall i :: 0 <= i < |OwnKeys(j)| ==> Get(j, OwnKeys(j)[i]) == Some(Values(j).value[i])
  {
    forall i | 0 <= i < |OwnKeys(j)|
      ensures Get(j, OwnKeys(j)[i]) == Some(Values(j).value[i])
    {
      GetAt(j, i);
    }
  }

  /** A flattened vote record. */
  datatype VoteRecord = VoteRecord(team: string, channel: string, ts: string, votes: Json)

  /** A flattened closed record. */
  datatype ClosedRecord = ClosedRecord(team: string, ts: string, closed: Json)

  /** The records of one channel's timestamps ks. */
  function TsRecords(team: string, channel: string, node: Json, ks: seq<string>): seq<VoteRecord> {
    if |ks| == 0 then []
    else TsRecords(team, channel, node, ks[..|ks| - 1]) + [VoteRecord(team, channel, ks[|ks| - 1], Child(node, ks[|ks| - 1]))]
  }

  /** The records of one team's channels ks. */
  function ChannelRecords(team: string, node: Json, ks: seq<string>): seq<VoteRecord> {
    if |ks| == 0 then []
    else
      var c := ks[|ks| - 1];
      ChannelRecords(team, node, ks[..|ks| - 1]) + TsRecords(team, c, Child(node, c), OwnKeys(Child(node, c)))
  }

  /** The records of the teams ks; the `polls` key is not a team. */
  function TeamRecords(root: Json, ks: seq<string>): seq<VoteRecord> {
    if |ks| == 0 then []
    else
      var t := ks[|ks| - 1];
      TeamRecords(root, ks[..|ks| - 1])
      + (if t == "polls" then [] else ChannelRecords(t, Child(root, t), OwnKeys(Child(root, t))))
  }

  /** All vote records of the old polls file, when its loops do not throw (scripts/migrate-v3.js:17-30). */
  function VoteRecords(root: Json): seq<VoteRecord> {
    TeamRecords(root, OwnKeys(root))
  }

  /** The closed records of one team's timestamps ks. */
  function ClosedTsRecords(team: string, node: Json, ks: seq<string>): seq<ClosedRecord> {
    if |ks| == 0 then []
    else ClosedTsRecords(team, node, ks[..|ks| - 1]) + [ClosedRecord(team, ks[|ks| - 1], Child(node, ks[|ks| - 1]))]
  }

  /** The closed records of the teams ks. */
  function ClosedTeamRecords(closed: Json, ks: seq<string>): seq<ClosedRecord> {
    if |ks| == 0 then []
    else
      var t := ks[|ks| - 1];
      ClosedTeamRecords(closed, ks[..|ks| - 1]) + ClosedTsRecords(t, Child(closed, t), OwnKeys(Child(closed, t)))
  }

  /** All closed records of `polls.closed`, when its loops do not throw (scripts/migrate-v3.js:32-40). */
  function ClosedRecords(closed: Json): seq<ClosedRecord> {
    ClosedTeamRecords(closed, OwnKeys(closed))
  }

  /** `Object.keys` succeeds on every member of node: none of them is `null`. */
  predicate MembersNotNull(node: Json) {
    forall k :: k in OwnKeys(node) ==> !Child(node, k).Null?
  }

  /** None of node's members at the keys ks is `null`, checked key by key as a loop does. */
  predicate NotNullAt(node: Json, ks: seq<string>) {
    |ks| == 0 || (NotNullAt(node, ks[..|ks| - 1]) && !Child(node, ks[|ks| - 1]).Null?)
  }

  /** The key-by-key check holds exactly when no member at a key of ks is `null`. */
  lemma {:induction false} NotNullAtAll(node: Json, ks: seq<string>)
    ensures NotNullAt(node, ks) <==> forall k :: k in ks ==> !Child(node, k).Null?
  {
    if |ks| > 0 {
      NotNullAtAll(node, ks[..|ks| - 1]);
      assert ks == ks[..|ks| - 1] + [ks[|ks| - 1]];
    }
  }

  /** The loops over one team's channels (scripts/migrate-v3.js:20-29) do not throw. */
  predicate TeamDefined(node: Json) {
    !node.Null? && MembersNotNull(node)
  }

  /** The team loop does not throw on the teams ks. */
  predicate TeamsDefined(root: Json, ks: seq<string>) {
    |ks| == 0
    || (TeamsDefined(root, ks[..|ks| - 1]) && (ks[|ks| - 1] == "polls" || TeamDefined(Child(root, ks[|ks| - 1]))))
  }

  /** The team loop does not throw on ks exactly when no team among them but `polls` throws. */
  lemma {:induction false} TeamsDefinedAll(root: Json, ks: seq<string>)
    ensures TeamsDefined(root, ks) <==> forall t :: t in ks && t != "polls" ==> TeamDefined(Child(root, t))
  {
    if |ks| > 0 {
      TeamsDefinedAll(root, ks[..|ks| - 1]);
      assert ks == ks[..|ks| - 1] + [ks[|ks| - 1]];
    }
  }

  /** The vote loops (scripts/migrate-v3.js:17-30) do not throw: no team but `polls`, and no channel of one, is `null`. */
  predicate VotesDefined(root: Json) {
    && !root.Null?
    && forall t :: t in OwnKeys(root) && t != "polls" ==> TeamDefined(Child(root, t))
  }

  /** The closed loops (scripts/migrate-v3.js:32-40) do not throw: `polls.closed` and its teams are not `null`. */
  predicate ClosedDefined(closed: Json) {
    !closed.Null? && MembersNotNull(closed)
  }

  /**
   * The three files the script writes; a throw leaves the later ones unwritten. The
   * votes and closed files are written together (scripts/migrate-v3.js:42-44).
   */
  datatype ScriptRun = ScriptRun(
    tokens: Option<seq<Json>>,
    votes: Option<seq<VoteRecord>>,
    closed: Option<seq<ClosedRecord>>)

  /**
   * The script's output. Reading `old.token` throws on a `null` file, and
   * `Object.values` on a missing or `null` token, before any file is written (line 5).
   * Reading `oldPolls.polls.closed` throws on a `null` file or a missing or `null`
   * `polls` (line 13), and the loops throw on a missing or `null` object they list; all
   * of these come after the token file and before the other two.
   */
  function ScriptOutput(openPoll: Json, oldPolls: Json): ScriptRun {
    var tdata := if openPoll.Null? then None else match Get(openPoll, "token") case Some(token) => Values(token) case None => None;
    if tdata.None? then ScriptRun(None, None, None)
    else
      var polls := if oldPolls.Null? then None else Get(oldPolls, "polls");
      if polls.None? || polls.value.Null? then ScriptRun(tdata, None, None)
      else
        var closed := Get(polls.value, "closed");
        if VotesDefined(oldPolls) && closed.Some? && ClosedDefined(closed.value) then
          ScriptRun(tdata, Some(VoteRecords(oldPolls)), Some(ClosedRecords(closed.value)))
        else ScriptRun(tdata, None, None)
  }

  /** The innermost loop of scripts/migrate-v3.js:21-28: one record per timestamp of a channel. */
  method FlattenStamps(team: string, channel: string, node: Json) returns (votes: Option<seq<VoteRecord>>)
    ensures votes == if node.Null? then None else Some(TsRecords(team, channel, node, OwnKeys(node)))
  {
    var keys := Keys(node);
    if keys.None? {
      return None;
    }
    var stamps := keys.value;
    var acc := [];
    for c := 0 to |stamps|
      invariant acc == TsRecords(team, channel, node, stamps[..c])
    {
      TakeOne(stamps, c);
      acc := acc + [VoteRecord(team, channel, stamps[c], Child(node, stamps[c]))];
    }
    TakeAll(stamps);
    votes := Some(acc);
  }

  /** The middle loop of scripts/migrate-v3.js:20-29: a team's channels. */
  method FlattenChannels(team: string, node: Json) returns (votes: Option<seq<VoteRecord>>)
    ensures votes == if TeamDefined(node) then Some(ChannelRecords(team, node, OwnKeys(node))) else None
  {
    var keys := Keys(node);
    if keys.None? {
      return None;
    }
    var channels := keys.value;
    var acc := [];
    for b := 0 to |channels|
      invariant acc == ChannelRecords(team, node, channels[..b])
      invariant NotNullAt(node, channels[..b])
    {
      TakeOne(channels, b);
      var more := FlattenStamps(team, channels[b], Child(node, channels[b]));
      if more.None? {
        assert channels[b] in channels;
        NotNullAtAll(node, channels);
        return None;
      }
      acc := acc + more.value;
    }
    TakeAll(channels);
    NotNullAtAll(node, channels);
    votes := Some(acc);
  }

  /** The outer loop of scripts/migrate-v3.js:17-30: every team but the `polls` key. */
  method FlattenVotes(root: Json) returns (votes: Option<seq<VoteRecord>>)
    ensures votes == if VotesDefined(root) then Some(VoteRecords(root)) else None
  {
    var keys := Keys(root);
    if keys.None? {
      return None;
    }
    var teams := keys.value;
    var acc := [];
    for a := 0 to |teams|
      invariant acc == TeamRecords(root, teams[..a])
      invariant TeamsDefined(root, teams[..a])
    {
      TakeOne(teams, a);
      if teams[a] != "polls" {
        var more := FlattenChannels(teams[a], Child(root, teams[a]));
        if more.None? {
          assert teams[a] in teams;
          TeamsDefinedAll(root, teams);
          return None;
        }
        acc := acc + more.value;
      }
    }
    TakeAll(teams);
    TeamsDefinedAll(root, teams);
    votes := Some(acc);
  }

  /** The inner loop of scripts/migrate-v3.js:33-39: one record per timestamp of a team. */
  method FlattenClosedStamps(team: string, node: Json) returns (records: Option<seq<ClosedRecord>>)
    ensures records == if node.Null? then None else Some(ClosedTsRecords(team, node, OwnKeys(node)))
  {
    var keys := Keys(node);
    if keys.None? {
      return None;
    }
    var stamps := keys.value;
    var acc := [];
    for c := 0 to |stamps|
      invariant acc == ClosedTsRecords(team, node, stamps[..c])
    {
      TakeOne(stamps, c);
      acc := acc + [ClosedRecord(team, stamps[c], Child(node, stamps[c]))];
    }
    TakeAll(stamps);
    records := Some(acc);
  }

  /** The outer loop of scripts/migrate-v3.js:32-40: every team of `polls.closed`. */
  method FlattenClosed(closed: Json) returns (records: Option<seq<ClosedRecord>>)
    ensures records == if ClosedDefined(closed) then Some(ClosedRecords(closed)) else None
  {
    var keys := Keys(closed);
    if keys.None? {
      return None;
    }
    var teams := keys.value;
    var acc := [];
    for a := 0 to |teams|
      invariant acc == ClosedTeamRecords(closed, teams[..a])
      invariant NotNullAt(closed, teams[..a])
    {
      TakeOne(teams, a);
      var more := FlattenClosedStamps(teams[a], Child(closed, teams[a]));
      if more.None? {
        assert teams[a] in teams;
        NotNullAtAll(closed, teams);
        return None;
      }
      acc := acc + more.value;
    }
    TakeAll(teams);
    NotNullAtAll(closed, teams);
    records := Some(acc);
  }

  /** The whole script, with each file write as an output. */
  method RunScript(openPoll: Json, oldPolls: Json) returns (run: ScriptRun)
    ensures run == ScriptOutput(openPoll, oldPolls)
  {
    if openPoll.Null? {
      return ScriptRun(None, None, None);
    }
    var token := Get(openPoll, "token");
    if token.None? {
      return ScriptRun(None, None, None);
    }
    var tdata := Values(token.value);
    if tdata.None? {
      return ScriptRun(None, None, None);
    }
    if oldPolls.Null? {
      return ScriptRun(tdata, None, None);
    }
    var polls := Get(oldPolls, "polls");
    if polls.None? || polls.value.Null? {
      return ScriptRun(tdata, None, None);
    }
    var closedRoot := Get(polls.value, "closed");
    var votes := FlattenVotes(oldPolls);
    if votes.None? || closedRoot.None? {
      return ScriptRun(tdata, None, None);
    }
    var closed := FlattenClosed(closedRoot.value);
    if closed.None? {
      return ScriptRun(tdata, None, None);
    }
    run := ScriptRun(tdata, votes, closed);
  }

  // ---------------------------------------------------------------------------
  // What the flattening produces

  /** A (team, channel, timestamp) path of the polls file that leads to votes. */
  predicate IsVotePath(root: Json, team: string, channel: string, ts: string) {
    && team in OwnKeys(root) && team != "polls"
    && channel in OwnKeys(Child(root, team))
    && ts in OwnKeys(Child(Child(root, team), channel))
  }

  /** The votes found at a path. */
  function VotesAt(root: Json, team: string, channel: string, ts: string): Json {
    Child(Child(Child(root, team), channel), ts)
  }

  lemma {:induction false} TsRecordsMembers(team: string, channel: string, node: Json, ks: seq<string>, r: VoteRecord)
    ensures r in TsRecords(team, channel, node, ks) <==>
      r.team == team && r.channel == channel && r.ts in ks && r.votes == Child(node, r.ts)
  {
    if |ks| > 0 {
      TsRecordsMembers(team, channel, node, ks[..|ks| - 1], r);
      assert ks == ks[..|ks| - 1] + [ks[|ks| - 1]];
    }
  }

  lemma {:induction false} ChannelRecordsMembers(team: string, node: Json, ks: seq<string>, r: VoteRecord)
    ensures r in ChannelRecords(team, node, ks) <==>
      && r.team == team && r.channel in ks
      && r.ts in OwnKeys(Child(node, r.channel)) && r.votes == Child(Child(node, r.channel), r.ts)
  {
    if |ks| > 0 {
      var c := ks[|ks| - 1];
      var init := ks[..|ks| - 1];
      ChannelRecordsMembers(team, node, init, r);
      TsRecordsMembers(team, c, Child(node, c), OwnKeys(Child(node, c)), r);
      assert ks == init + [c];
      assert r.channel in ks <==> r.channel in init || r.channel == c;
    }
  }

  lemma {:induction false} TeamRecordsMembers(root: Json, ks: seq<string>, r: VoteRecord)
    ensures r in TeamRecords(root, ks) <==>
      && r.team in ks && r.team != "polls"
      && r.channel in OwnKeys(Child(root, r.team))
      && r.ts in OwnKeys(Child(Child(root, r.team), r.channel))
      && r.votes == VotesAt(root, r.team, r.channel, r.ts)
  {
    if |ks| > 0 {
      var t := ks[|ks| - 1];
      TeamRecordsMembers(root, ks[..|ks| - 1], r);
      ChannelRecordsMembers(t, Child(root, t), OwnKeys(Child(root, t)), r);
      assert ks == ks[..|ks| - 1] + [t];
    }
  }

  /**
   * A record is produced exactly for each (team, channel, timestamp) path outside the
   * `polls` key, carrying the votes found there unchanged.
   */
  lemma VoteRecordsMembers(root: Json, r: VoteRecord)
    ensures r in VoteRecords(root) <==>
      IsVotePath(root, r.team, r.channel, r.ts) && r.votes == VotesAt(root, r.team, r.channel, r.ts)
  {
    TeamRecordsMembers(root, OwnKeys(root), r);
  }

  /** A record's path. */
  function PathOf(r: VoteRecord): (string, string, string) {
    (r.team, r.channel, r.ts)
  }

  /** No two records share a path. */
  predicate DistinctPaths(rs: seq<VoteRecord>) {
    forall i, j :: 0 <= i < j < |rs| ==> PathOf(rs[i]) != PathOf(rs[j])
  }

  lemma DistinctPathsConcat(a: seq<VoteRecord>, b: seq<VoteRecord>)
    requires DistinctPaths(a) && DistinctPaths(b)
    requires forall x, y :: x in a && y in b ==> PathOf(x) != PathOf(y)
    ensures DistinctPaths(a + b)
  {
    forall i, j | 0 <= i < j < |a + b|
      ensures PathOf((a + b)[i]) != PathOf((a + b)[j])
    {
      if j >= |a| && i < |a| {
        assert (a + b)[i] in a && (a + b)[j] in b;
      } else if i >= |a| {
        assert (a + b)[i] == b[i - |a|] && (a + b)[j] == b[j - |a|];
      }
    }
  }

  lemma {:induction false} TsRecordsDistinct(team: string, channel: string, node: Json, ks: seq<string>)
    requires NoDup(ks)
    ensures DistinctPaths(TsRecords(team, channel, node, ks))
  {
    if |ks| > 0 {
      var init := ks[..|ks| - 1];
      var last := ks[|ks| - 1];
      TsRecordsDistinct(team, channel, node, init);
      var r := VoteRecord(team, channel, last, Child(node, last));
      forall x | x in TsRecords(team, channel, node, init)
        ensures PathOf(x) != PathOf(r)
      {
        TsRecordsMembers(team, channel, node, init, x);
      }
      DistinctPathsConcat(TsRecords(team, channel, node, init), [r]);
    }
  }

  lemma {:induction false} ChannelRecordsDistinct(team: string, node: Json, ks: seq<string>)
    requires NoDup(ks)
    requires forall c :: c in ks ==> DistinctKeys(Child(node, c))
    ensures DistinctPaths(ChannelRecords(team, node, ks))
  {
    if |ks| > 0 {
      var init := ks[..|ks| - 1];
      var c := ks[|ks| - 1];
      ChannelRecordsDistinct(team, node, init);
      DistinctKeysStrings(Child(node, c));
      TsRecordsDistinct(team, c, Child(node, c), OwnKeys(Child(node, c)));
      forall x, y | x in ChannelRecords(team, node, init) && y in TsRecords(team, c, Child(node, c), OwnKeys(Child(node, c)))
        ensures PathOf(x) != PathOf(y)
      {
        ChannelRecordsMembers(team, node, init, x);
        TsRecordsMembers(team, c, Child(node, c), OwnKeys(Child(node, c)), y);
      }
      DistinctPathsConcat(ChannelRecords(team, node, init), TsRecords(team, c, Child(node, c), OwnKeys(Child(node, c))));
    }
  }

  lemma {:induction false} TeamRecordsDistinct(root: Json, ks: seq<string>)
    requires NoDup(ks) && Proper(root)
    requires forall t :: t in ks ==> t in OwnKeys(root)
    ensures DistinctPaths(TeamRecords(root, ks))
  {
    if |ks| > 0 {
      var init := ks[..|ks| - 1];
      var t := ks[|ks| - 1];
      TeamRecordsDistinct(root, init);
      if t != "polls" {
        var node := Child(root, t);
        ChildProper(root, t);
        forall c | c in OwnKeys(node)
          ensures DistinctKeys(Child(node, c))
        {
          ChildProper(node, c);
        }
        DistinctKeysStrings(node);
        ChannelRecordsDistinct(t, node, OwnKeys(node));
        forall x, y | x in TeamRecords(root, init) && y in ChannelRecords(t, node, OwnKeys(node))
          ensures PathOf(x) != PathOf(y)
        {
          TeamRecordsMembers(root, init, x);
          ChannelRecordsMembers(t, node, OwnKeys(node), y);
        }
        DistinctPathsConcat(TeamRecords(root, init), ChannelRecords(t, node, OwnKeys(node)));
      } else {
        assert TeamRecords(root, ks) == TeamRecords(root, init);
      }
    }
  }

  /** The vote paths of the polls file. */
  function VotePaths(root: Json): set<(string, string, string)> {
    set t, c, ts | t in OwnKeys(root) && t != "polls" && c in OwnKeys(Child(root, t)) && ts in OwnKeys(Child(Child(root, t), c))
      :: (t, c, ts)
  }

  /** The paths of a list of records. */
  function PathSet(rs: seq<VoteRecord>): set<(string, string, string)> {
    set r | r in rs :: PathOf(r)
  }

  lemma {:induction false} PathSetSize(rs: seq<VoteRecord>)
    requires DistinctPaths(rs)
    ensures |PathSet(rs)| == |rs|
  {
    if |rs| > 0 {
      var init := rs[..|rs| - 1];
      var last := rs[|rs| - 1];
      PathSetSize(init);
      assert rs == init + [last];
      assert PathSet(rs) == PathSet(init) + {PathOf(last)};
      assert PathOf(last) !in PathSet(init);
    }
  }

  /**
   * Of a proper polls file, the script yields exactly one record per vote path: no two
   * records share a path, and there are as many records as paths.
   */
  lemma VoteRecordsOnePerPath(root: Json)
    requires Proper(root)
    ensures DistinctPaths(VoteRecords(root))
    ensures PathSet(VoteRecords(root)) == VotePaths(root)
    ensures |VoteRecords(root)| == |VotePaths(root)|
  {
    DistinctKeysStrings(root);
    TeamRecordsDistinct(root, OwnKeys(root));
    var rs := VoteRecords(root);
    forall p | p in VotePaths(root)
      ensures p in PathSet(rs)
    {
      var r := VoteRecord(p.0, p.1, p.2, VotesAt(root, p.0, p.1, p.2));
      VoteRecordsMembers(root, r);
    }
    forall p | p in PathSet(rs)
      ensures p in VotePaths(root)
    {
      var r :| r in rs && PathOf(r) == p;
      VoteRecordsMembers(root, r);
    }
    PathSetSize(rs);
  }

  lemma {:induction false} ClosedTsRecordsMembers(team: string, node: Json, ks: seq<string>, r: ClosedRecord)
    ensures r in ClosedTsRecords(team, node, ks) <==> r.team == team && r.ts in ks && r.closed == Child(node, r.ts)
  {
    if |ks| > 0 {
      ClosedTsRecordsMembers(team, node, ks[..|ks| - 1], r);
      assert ks == ks[..|ks| - 1] + [ks[|ks| - 1]];
    }
  }

  lemma {:induction false} ClosedTeamRecordsMembers(closed: Json, ks: seq<string>, r: ClosedRecord)
    ensures r in ClosedTeamRecords(closed, ks) <==>
      r.team in ks && r.ts in OwnKeys(Child(closed, r.team)) && r.closed == Child(Child(closed, r.team), r.ts)
  {
    if |ks| > 0 {
      var t := ks[|ks| - 1];
      ClosedTeamRecordsMembers(closed, ks[..|ks| - 1], r);
      ClosedTsRecordsMembers(t, Child(closed, t), OwnKeys(Child(closed, t)), r);
      assert ks == ks[..|ks| - 1] + [t];
    }
  }

  /** A closed record is produced exactly for each (team, timestamp) path, carrying the value found there. */
  lemma ClosedRecordsMembers(closed: Json, r: ClosedRecord)
    ensures r in ClosedRecords(closed) <==>
      r.team in OwnKeys(closed) && r.ts in OwnKeys(Child(closed, r.team)) && r.closed == Child(Child(closed, r.team), r.ts)
  {
    ClosedTeamRecordsMembers(closed, OwnKeys(closed), r);
  }

  /** No two closed records share a (team, timestamp) path. */
  predicate DistinctClosedPaths(rs: seq<ClosedRecord>) {
    forall i, j :: 0 <= i < j < |rs| ==> (rs[i].team, rs[i].ts) != (rs[j].team, rs[j].ts)
  }

  lemma DistinctClosedConcat(a: seq<ClosedRecord>, b: seq<ClosedRecord>)
    requires DistinctClosedPaths(a) && DistinctClosedPaths(b)
    requires forall x, y :: x in a && y in b ==> (x.team, x.ts) != (y.team, y.ts)
    ensures DistinctClosedPaths(a + b)
  {
    forall i, j | 0 <= i < j < |a + b|
      ensures ((a + b)[i].team, (a + b)[i].ts) != ((a + b)[j].team, (a + b)[j].ts)
    {
      if j >= |a| && i < |a| {
        assert (a + b)[i] in a && (a + b)[j] in b;
      } else if i >= |a| {
        assert (a + b)[i] == b[i - |a|] && (a + b)[j] == b[j - |a|];
      }
    }
  }

  lemma {:induction false} ClosedTsDistinct(team: string, node: Json, ks: seq<string>)
    requires NoDup(ks)
    ensures DistinctClosedPaths(ClosedTsRecords(team, node, ks))
  {
    if |ks| > 0 {
      var init := ks[..|ks| - 1];
      var last := ks[|ks| - 1];
      ClosedTsDistinct(team, node, init);
      var r := ClosedRecord(team, last, Child(node, last));
      forall x | x in ClosedTsRecords(team, node, init)
        ensures (x.team, x.ts) != (r.team, r.ts)
      {
        ClosedTsRecordsMembers(team, node, init, x);
      }
      DistinctClosedConcat(ClosedTsRecords(team, node, init), [r]);
    }
  }

  lemma {:induction false} ClosedTeamDistinct(closed: Json, ks: seq<string>)
    requires NoDup(ks) && Proper(closed)
    requires forall t :: t in ks ==> t in OwnKeys(closed)
    ensures DistinctClosedPaths(ClosedTeamRecords(closed, ks))
  {
    if |ks| > 0 {
      var init := ks[..|ks| - 1];
      var t := ks[|ks| - 1];
      var node := Child(closed, t);
      ClosedTeamDistinct(closed, init);
      ChildProper(closed, t);
      DistinctKeysStrings(node);
      ClosedTsDistinct(t, node, OwnKeys(node));
      forall x, y | x in ClosedTeamRecords(closed, init) && y in ClosedTsRecords(t, node, OwnKeys(node))
        ensures (x.team, x.ts) != (y.team, y.ts)
      {
        ClosedTeamRecordsMembers(closed, init, x);
        ClosedTsRecordsMembers(t, node, OwnKeys(node), y);
      }
      DistinctClosedConcat(ClosedTeamRecords(closed, init), ClosedTsRecords(t, node, OwnKeys(node)));
    }
  }

  /** The (team, timestamp) paths under `polls.closed`. */
  function ClosedPaths(closed: Json): set<(string, string)> {
    set t, ts | t in OwnKeys(closed) && ts in OwnKeys(Child(closed, t)) :: (t, ts)
  }

  /** The paths of a list of closed records. */
  function ClosedPathSet(rs: seq<ClosedRecord>): set<(string, string)> {
    set r | r in rs :: (r.team, r.ts)
  }

  lemma {:induction false} ClosedPathSetSize(rs: seq<ClosedRecord>)
    requires DistinctClosedPaths(rs)
    ensures |ClosedPathSet(rs)| == |rs|
  {
    if |rs| > 0 {
      var init := rs[..|rs| - 1];
      var last := rs[|rs| - 1];
      ClosedPathSetSize(init);
      assert rs == init + [last];
      assert ClosedPathSet(rs) == ClosedPathSet(init) + {(last.team, last.ts)};
      assert (last.team, last.ts) !in ClosedPathSet(init);
    }
  }

  /** Of a proper `polls.closed` object, the script yields exactly one closed record per path. */
  lemma ClosedRecordsOnePerPath(closed: Json)
    requires Proper(closed)
    ensures DistinctClosedPaths(ClosedRecords(closed))
    ensures ClosedPathSet(ClosedRecords(closed)) == ClosedPaths(closed)
    ensures |ClosedRecords(closed)| == |ClosedPaths(closed)|
  {
    DistinctKeysStrings(closed);
    ClosedTeamDistinct(closed, OwnKeys(closed));
    var rs := ClosedRecords(closed);
    forall p | p in ClosedPaths(closed)
      ensures p in ClosedPathSet(rs)
    {
      var r := ClosedRecord(p.0, p.1, Child(Child(closed, p.0), p.1));
      ClosedRecordsMembers(closed, r);
    }
    forall p | p in ClosedPathSet(rs)
      ensures p in ClosedPaths(closed)
    {
      var r :| r in rs && (r.team, r.ts) == p;
      ClosedRecordsMembers(closed, r);
    }
    ClosedPathSetSize(rs);
  }

  /**
   * The token file is written exactly when `token` exists and is not `null`, and lists
   * its members in key order; the other two files are written exactly when, besides,
   * `polls` and `polls.closed` exist and are not `null` and no object the loops list
   * is `null`, and they then hold the records of VoteRecords and ClosedRecords.
   */
  lemma ScriptFiles(openPoll: Json, oldPolls: Json)
    requires Proper(openPoll)
    ensures var run := ScriptOutput(openPoll, oldPolls);
      var token := if openPoll.Null? then None else Get(openPoll, "token");
      var polls := if oldPolls.Null? then None else Get(oldPolls, "polls");
      var closed := if polls.Some? then Get(polls.value, "closed") else None;
      && (run.tokens.Some? <==> token.Some? && !token.value.Null?)
      && (run.tokens.Some? ==>
            |run.tokens.value| == |OwnKeys(token.value)|
            && forall i :: 0 <= i < |OwnKeys(token.value)| ==> Get(token.value, OwnKeys(token.value)[i]) == Some(run.tokens.value[i]))
      && (run.votes.Some? <==>
            && run.tokens.Some? && polls.Some? && !polls.value.Null?
            && VotesDefined(oldPolls) && closed.Some? && ClosedDefined(closed.value))
      && (run.votes.Some? ==> run.votes.value == VoteRecords(oldPolls) && run.closed == Some(ClosedRecords(closed.value)))
      && (run.closed.Some? <==> run.votes.Some?)
  {
    var token := if openPoll.Null? then None else Get(openPoll, "token");
    if token.Some? {
      GetProper(openPoll, "token");
      if !token.value.Null? {
        ValuesAreMembers(token.value);
      }
    }
  }

  /** A `null` token throws on line 5: no file is written. */
  lemma NullTokenWritesNothing(oldPolls: Json)
    ensures ScriptOutput(Obj([Field("token", Null)]), oldPolls) == ScriptRun(None, None, None)
  {
  }

  /** A `null` `polls.closed` throws on line 32, after the token file and before the others. */
  lemma NullClosedWritesTokensOnly()
    ensures ScriptOutput(Obj([Field("token", Obj([]))]), Obj([Field("polls", Obj([Field("closed", Null)]))]))
      == ScriptRun(Some([]), None, None)
  {
  }

  /**
   * A team whose value is the string "ab" has the channels "0" and "1", the characters,
   * and each of these the timestamp "0".
   */
  lemma StringTeamRecords()
    ensures VoteRecords(Obj([Field("T", Str("ab"))])) ==
      [VoteRecord("T", "0", "0", Str("a")), VoteRecord("T", "1", "0", Str("b"))]
  {
    assert NatToString(0) == "0" && NatToString(1) == "1";
    assert OwnKeys(Str("ab")) == ["0", "1"];
    assert OwnKeys(Str("a")) == ["0"] && OwnKeys(Str("b")) == ["0"];
    IndexOfKeyAt(0, 2);
    IndexOfKeyAt(0, 1);
    assert Child(Str("ab"), "0") == Str("a");
    assert Child(Str("ab"), "1") == Str("b");
    assert Child(Str("a"), "0") == Str("a");
    assert Child(Str("b"), "0") == Str("b");
    var root := Obj([Field("T", Str("ab"))]);
    assert OwnKeys(root) == ["T"] && Child(root, "T") == Str("ab");
    assert ["0", "1"][..1] == ["0"];
    assert TsRecords("T", "0", Str("a"), ["0"]) == [VoteRecord("T", "0", "0", Str("a"))];
    assert TsRecords("T", "1", Str("b"), ["0"]) == [VoteRecord("T", "1", "0", Str("b"))];
    assert ChannelRecords("T", Str("ab"), ["0"]) == [VoteRecord("T", "0", "0", Str("a"))];
  }
}
