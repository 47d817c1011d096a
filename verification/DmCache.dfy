/** The bounded cache of direct-message participants (packages/sdk-rust/src/dm_participants.rs).
    The clock, the answers of the relay and the iteration order of the hash map are inputs. */
module DmCache {
  import opened Wrappers
  import opened Strings

  const SUCCESS_TTL := 30_000
  const FAILURE_TTL := 5_000
  const MAX_ENTRIES := 8192

  datatype Options = Options(successTtl: nat, failureTtl: nat, maxEntries: nat)

  datatype Answer = Found(participants: seq<string>) | Failed(error: string)

  /** A cached answer: `Success` and `Failure` of the source, with the time it was stored. */
  datatype CacheEntry = Success(fetchedAt: nat, participants: seq<string>) | Failure(failedAt: nat)
  {
    function Timestamp(): nat {
      if Success? then fetchedAt else failedAt
    }
  }

  /** A lookup that went to the relay, and when its answer came back. */
  datatype Lookup = Lookup(workspace: string, conversation: string, at: nat, answer: Answer)

  /** One call of `resolve`: the clock when it starts, what the relay would answer and when,
      and the order in which the hash map happens to iterate over its keys. */
  datatype Call = Call(workspace: string, conversation: string, now: nat, answer: Answer, later: nat, order: seq<string>)

  datatype Reply = Listed(participants: seq<string>) | Errored(error: string)

  datatype State = State(entries: map<string, CacheEntry>, log: seq<Lookup>, clock: nat)

  // ---- names ----------------------------------------------------------------------------

  function Key(workspace: string, conversation: string): string {
    ColonJoin(workspace, conversation)
  }

  // ---- one call -------------------------------------------------------------------------

  /** The first key of least timestamp, as `min_by_key` picks it. */
  function Oldest(entries: map<string, CacheEntry>, order: seq<string>): Option<string> {
    if order == [] then None
    else
      var rest := Oldest(entries, order[1..]);
      if order[0] !in entries then rest
      else if rest.Some? && rest.value in entries && entries[rest.value].Timestamp() < entries[order[0]].Timestamp() then rest
      else Some(order[0])
  }

  function Insert(o: Options, entries: map<string, CacheEntry>, order: seq<string>, key: string, entry: CacheEntry)
    : map<string, CacheEntry>
  {
    if o.maxEntries == 0 then entries
    else
      var kept := if key !in entries && |entries| >= o.maxEntries then
                    match Oldest(entries, order) case Some(k) => entries - {k} case None => entries
                  else entries;
      kept[key := entry]
  }

  predicate Fresh(o: Options, entry: CacheEntry, now: nat) {
    if entry.Success? then now - entry.fetchedAt < o.successTtl else now - entry.failedAt < o.failureTtl
  }

  function Stored(answer: Answer, at: nat): CacheEntry {
    if answer.Found? then Success(at, answer.participants) else Failure(at)
  }

  function Step(o: Options, s: State, c: Call): (State, Reply) {
    var w, d := Trim(c.workspace), Trim(c.conversation);
    if d == "" then (s.(clock := c.now), Listed([]))
    else if Key(w, d) in s.entries && Fresh(o, s.entries[Key(w, d)], c.now) then
      var e := s.entries[Key(w, d)];
      (s.(clock := c.now), Listed(if e.Success? then e.participants else []))
    else
      (State(Insert(o, s.entries, c.order, Key(w, d), Stored(c.answer, c.later)),
             s.log + [Lookup(w, d, c.later, c.answer)], c.later),
       if c.answer.Found? then Listed(c.answer.participants) else Errored(c.answer.error))
  }

  function Run(o: Options, calls: seq<Call>): State {
    if calls == [] then State(map[], [], 0)
    else Step(o, Run(o, calls[..|calls| - 1]), calls[|calls| - 1]).0
  }

  /** The clock does not run back, and iteration visits every key of the map. */
  ghost predicate Possible(s: State, c: Call) {
    s.clock <= c.now <= c.later && forall k :: k in s.entries ==> k in c.order
  }

  ghost predicate PossibleRun(o: Options, calls: seq<Call>) {
    calls != [] ==> PossibleRun(o, calls[..|calls| - 1]) && Possible(Run(o, calls[..|calls| - 1]), calls[|calls| - 1])
  }

  // ---- what a run keeps -----------------------------------------------------------------

  /** The latest lookup stored under a key. */
  ghost function Latest(log: seq<Lookup>, key: string): Option<Lookup> {
    if log == [] then None
    else
      var l := log[|log| - 1];
      if Key(l.workspace, l.conversation) == key then Some(l) else Latest(log[..|log| - 1], key)
  }

  ghost function KeysOf(log: seq<Lookup>): set<string> {
    set l | l in log :: Key(l.workspace, l.conversation)
  }

  ghost predicate Mirrors(s: State, key: string) {
    key in s.entries ==>
      && Latest(s.log, key).Some?
      && var l := Latest(s.log, key).value;
         s.entries[key] == Stored(l.answer, l.at) && l.at <= s.clock
  }

  ghost predicate Inv(o: Options, s: State) {
    && |s.entries| <= o.maxEntries
    && (forall key :: key in s.entries ==> Mirrors(s, key))
    && (|KeysOf(s.log)| <= o.maxEntries ==> s.entries.Keys == KeysOf(s.log))
    && (forall i :: 0 <= i < |s.log| ==> s.log[i].at <= s.clock)
  }

  lemma {:induction false} OldestIsLeast(entries: map<string, CacheEntry>, order: seq<string>)
    requires exists k :: k in entries && k in order
    ensures var r := Oldest(entries, order);
            r.Some? && r.value in entries
            && (forall k :: k in entries && k in order ==> entries[r.value].Timestamp() <= entries[k].Timestamp())
            && exists i :: 0 <= i < |order| && order[i] == r.value
                 && forall j :: 0 <= j < i && order[j] in entries ==> entries[r.value].Timestamp() < entries[order[j]].Timestamp()
  {
    var k0 :| k0 in entries && k0 in order;
    assert forall k :: k in order <==> k == order[0] || k in order[1..];
    if exists k :: k in entries && k in order[1..] {
      OldestIsLeast(entries, order[1..]);
    } else {
      assert order[0] in entries;
      OldestOfNone(entries, order[1..]);
    }
  }

  lemma {:induction false} OldestOfNone(entries: map<string, CacheEntry>, order: seq<string>)
    requires forall k :: k in order ==> k !in entries
    ensures Oldest(entries, order) == None
  {
    if order != [] {
      assert order[0] in order;
      OldestOfNone(entries, order[1..]);
    }
  }

  lemma {:induction false} RemovingShrinks(entries: map<string, CacheEntry>, k: string)
    requires k in entries
    ensures |entries - {k}| == |entries| - 1
  {
    assert (entries - {k}).Keys == entries.Keys - {k};
  }

  lemma AddingGrows(entries: map<string, CacheEntry>, k: string, e: CacheEntry)
    ensures |entries[k := e]| == if k in entries then |entries| else |entries| + 1
  {
    assert entries[k := e].Keys == entries.Keys + {k};
    if k in entries { assert entries[k := e].Keys == entries.Keys; }
  }

  /** Storing an answer keeps the cache within its limit and gives up at most one entry: the
      key that is stored is new, the cache is full, and no other entry is older. */
  lemma InsertEvictsTheOldest(o: Options, entries: map<string, CacheEntry>, order: seq<string>, key: string, entry: CacheEntry)
    requires |entries| <= o.maxEntries && forall k :: k in entries ==> k in order
    ensures var r := Insert(o, entries, order, key, entry);
      && |r| <= o.maxEntries
      && (o.maxEntries == 0 ==> r == map[])
      && (o.maxEntries > 0 ==> key in r && r[key] == entry)
      && (forall k :: k in r && k != key ==> k in entries && r[k] == entries[k])
      && (key in entries || |entries| < o.maxEntries ==> forall k :: k in entries ==> k in r)
      && (forall k, l :: k in entries && k !in r && l in entries ==> entries[k].Timestamp() <= entries[l].Timestamp())
      && (forall k, l :: k in entries && k !in r && l in entries && l !in r ==> k == l)
      && (key !in entries && |entries| == o.maxEntries > 0 ==> exists k :: k in entries && k !in r)
  {
    if o.maxEntries > 0 {
      if key !in entries && |entries| >= o.maxEntries {
        assert |entries.Keys| > 0;
        var k0 :| k0 in entries.Keys;
        OldestIsLeast(entries, order);
        var k := Oldest(entries, order).value;
        RemovingShrinks(entries, k);
        AddingGrows(entries - {k}, key, entry);
      } else {
        AddingGrows(entries, key, entry);
      }
    } else {
      assert |entries.Keys| == 0;
    }
  }

  lemma LatestOfSnoc(log: seq<Lookup>, l: Lookup, key: string)
    ensures Latest(log + [l], key) == if Key(l.workspace, l.conversation) == key then Some(l) else Latest(log, key)
    ensures KeysOf(log + [l]) == KeysOf(log) + {Key(l.workspace, l.conversation)}
  {
    assert (log + [l])[..|log|] == log;
    var k := Key(l.workspace, l.conversation);
    forall x ensures x in KeysOf(log + [l]) <==> x in KeysOf(log) + {k} {
      if x in KeysOf(log) { var m :| m in log && Key(m.workspace, m.conversation) == x; assert m in log + [l]; }
      if x == k { assert l in log + [l]; }
    }
  }

  lemma MissKeeps(o: Options, s: State, c: Call)
    requires Inv(o, s) && Possible(s, c)
    ensures var l := Lookup(Trim(c.workspace), Trim(c.conversation), c.later, c.answer);
            var k := Key(l.workspace, l.conversation);
            Inv(o, State(Insert(o, s.entries, c.order, k, Stored(c.answer, c.later)), s.log + [l], c.later))
  {
    hide Insert, Trim, Key, KeysOf;
    var l := Lookup(Trim(c.workspace), Trim(c.conversation), c.later, c.answer);
    var k := Key(l.workspace, l.conversation);
    var e := Stored(c.answer, c.later);
    InsertEvictsTheOldest(o, s.entries, c.order, k, e);
    var t := State(Insert(o, s.entries, c.order, k, e), s.log + [l], c.later);
    forall key | key in t.entries ensures Mirrors(t, key) {
      LatestOfSnoc(s.log, l, key);
      assert key != k ==> Mirrors(s, key);
    }
    LatestOfSnoc(s.log, l, k);
    MissKeepsKeys(o, s, t, k);
  }

  /** While all keys fit, none is given up. */
  lemma MissKeepsKeys(o: Options, s: State, t: State, k: string)
    requires |KeysOf(s.log)| <= o.maxEntries ==> s.entries.Keys == KeysOf(s.log)
    requires KeysOf(t.log) == KeysOf(s.log) + {k} && (o.maxEntries > 0 ==> k in t.entries)
    requires forall key :: key in t.entries && key != k ==> key in s.entries
    requires k in s.entries || |s.entries| < o.maxEntries ==> forall key :: key in s.entries ==> key in t.entries
    ensures |KeysOf(t.log)| <= o.maxEntries ==> t.entries.Keys == KeysOf(t.log)
  {
    hide KeysOf;
    if |KeysOf(t.log)| <= o.maxEntries {
      SubsetSize(KeysOf(s.log), KeysOf(t.log));
      SubsetSize({k}, KeysOf(t.log));
      if k !in s.entries { assert |KeysOf(t.log)| == |s.entries.Keys| + 1; }
    }
  }

  lemma {:induction false} SubsetSize(a: set<string>, b: set<string>)
    requires a <= b
    ensures |a| <= |b|
  {
    if a != {} {
      var x :| x in a;
      SubsetSize(a - {x}, b - {x});
    }
  }

  lemma StepKeeps(o: Options, s: State, c: Call)
    requires Inv(o, s) && Possible(s, c)
    ensures Inv(o, Step(o, s, c).0)
  {
    hide Insert, Trim, Key, Fresh;
    MissKeeps(o, s, c);
    var t := s.(clock := c.now);
    forall key | key in t.entries ensures Mirrors(t, key) { assert Mirrors(s, key); }
    assert Inv(o, t);
  }

  lemma {:induction false} RunKeeps(o: Options, calls: seq<Call>)
    requires PossibleRun(o, calls)
    ensures Inv(o, Run(o, calls))
  {
    if calls != [] {
      var before := calls[..|calls| - 1];
      RunKeeps(o, before);
      StepKeeps(o, Run(o, before), calls[|calls| - 1]);
    } else {
      assert KeysOf([]) == {};
    }
  }

  // ---- the main results -----------------------------------------------------------------

  /** The latest lookup of one conversation of one workspace. */
  ghost function LatestLookup(log: seq<Lookup>, w: string, d: string): Option<Lookup> {
    if log == [] then None
    else
      var l := log[|log| - 1];
      if l.workspace == w && l.conversation == d then Some(l) else LatestLookup(log[..|log| - 1], w, d)
  }

  /** What a client that remembered every lookup could answer without asking again: nothing
      for a blank id, a success younger than its time to live, and an empty list after a
      failure younger than its own. */
  ghost function Remembered(o: Options, log: seq<Lookup>, w: string, d: string, now: nat): Option<seq<string>> {
    if d == "" then Some([])
    else
      match LatestLookup(log, w, d)
      case None => None
      case Some(l) =>
        if l.answer.Found? && now < l.at + o.successTtl then Some(l.answer.participants)
        else if l.answer.Failed? && now < l.at + o.failureTtl then Some([])
        else None
  }

  /** A call of its own conversation, or of one with another cache key. */
  ghost predicate Apart(a: Call, w: string, d: string) {
    Key(Trim(a.workspace), Trim(a.conversation)) == Key(w, d) ==> Trim(a.workspace) == w && Trim(a.conversation) == d
  }

  /** No other conversation was looked up under the same cache key. */
  ghost predicate NoClash(log: seq<Lookup>, w: string, d: string) {
    forall i :: 0 <= i < |log| && Key(log[i].workspace, log[i].conversation) == Key(w, d) ==>
      log[i].workspace == w && log[i].conversation == d
  }

  lemma {:induction false} RunHasNoClash(o: Options, calls: seq<Call>, w: string, d: string)
    requires forall i :: 0 <= i < |calls| ==> Apart(calls[i], w, d)
    ensures NoClash(Run(o, calls).log, w, d)
  {
    hide Trim, Insert, Key, Fresh;
    if calls != [] {
      RunHasNoClash(o, calls[..|calls| - 1], w, d);
      assert Apart(calls[|calls| - 1], w, d);
    }
  }

  lemma {:induction false} LatestByKey(log: seq<Lookup>, w: string, d: string)
    requires NoClash(log, w, d)
    ensures Latest(log, Key(w, d)) == LatestLookup(log, w, d)
    ensures Key(w, d) in KeysOf(log) <==> LatestLookup(log, w, d).Some?
  {
    hide Key;
    if log != [] {
      var l := log[|log| - 1];
      assert log == log[..|log| - 1] + [l];
      LatestOfSnoc(log[..|log| - 1], l, Key(w, d));
      LatestByKey(log[..|log| - 1], w, d);
    }
  }

  /** The call behaves as it should: a reply given without asking the relay is the one a client
      that remembered every lookup would give; otherwise the relay is asked once, for the
      conversation the call names, and its answer is passed on.  While no more conversations
      were looked up than the cache holds, the relay is asked only when such a client would
      have to ask. */
  ghost predicate Remembers(o: Options, s: State, c: Call) {
    var w, d := Trim(c.workspace), Trim(c.conversation);
    var memory := Remembered(o, s.log, w, d, c.now);
    var (t, r) := Step(o, s, c);
    && (t.log == s.log ==> memory.Some? && r == Listed(memory.value))
    && (t.log != s.log ==>
          && d != ""
          && t.log == s.log + [Lookup(w, d, c.later, c.answer)]
          && (forall ps :: r == Listed(ps) <==> c.answer == Found(ps))
          && (forall e :: r == Errored(e) <==> c.answer == Failed(e)))
    && (|KeysOf(s.log)| <= o.maxEntries ==> (t.log == s.log <==> memory.Some?))
  }

  /** After every run with a clock that does not run back, in which no other conversation with
      the same cache key was resolved, a call behaves as it should and the cache stays within
      its limit. */
  lemma ResolveRemembers(o: Options, calls: seq<Call>, c: Call)
    requires PossibleRun(o, calls) && Possible(Run(o, calls), c)
    requires forall i :: 0 <= i < |calls| ==> Apart(calls[i], Trim(c.workspace), Trim(c.conversation))
    ensures Remembers(o, Run(o, calls), c) && |Step(o, Run(o, calls), c).0.entries| <= o.maxEntries
  {
    hide Insert, Trim, Key, KeysOf, Remembered, Fresh, Run, PossibleRun, Mirrors, NoClash, Apart;
    var w, d := Trim(c.workspace), Trim(c.conversation);
    RunKeeps(o, calls);
    RunHasNoClash(o, calls, w, d);
    var s := Run(o, calls);
    StepKeeps(o, s, c);
    MemoryIsFresh(o, s, w, d, c.now);
  }

  /** A fresh entry is exactly what a client that remembers every lookup would answer with. */
  lemma MemoryIsFresh(o: Options, s: State, w: string, d: string, now: nat)
    requires Inv(o, s) && NoClash(s.log, w, d) && s.clock <= now
    ensures d == "" ==> Remembered(o, s.log, w, d, now) == Some([])
    ensures d != "" && Key(w, d) in s.entries ==>
      var e := s.entries[Key(w, d)];
      Remembered(o, s.log, w, d, now) == if Fresh(o, e, now) then Some(if e.Success? then e.participants else []) else None
    ensures d != "" && Key(w, d) !in s.entries && |KeysOf(s.log)| <= o.maxEntries ==> Remembered(o, s.log, w, d, now) == None
  {
    hide Key, KeysOf, NoClash;
    LatestByKey(s.log, w, d);
    assert Key(w, d) in s.entries ==> Mirrors(s, Key(w, d));
  }

  // ---- which workspace ids are safe -----------------------------------------------------

  /** One trimmed workspace id continues another at a colon, with something a trimmed
      conversation id can start with. */
  ghost predicate Continues(v: string, w: string) {
    |w| < |v| && v[..|w|] == w && v[|w|] == ':' && (|v| == |w| + 1 || !IsSpace(v[|w| + 1]))
  }

  ghost predicate NoneContinues(ids: iset<string>) {
    forall v, w :: v in ids && w in ids ==> !Continues(Trim(v), Trim(w))
  }

  /** The options under which no stored answer is ever used. */
  ghost predicate NeverReuses(o: Options) {
    o.maxEntries == 0 || (o.successTtl == 0 && o.failureTtl == 0)
  }

  ghost predicate Among(calls: seq<Call>, ids: iset<string>) {
    forall i :: 0 <= i < |calls| ==> calls[i].workspace in ids
  }

  /** Every call of every run over these workspace ids behaves as it should. */
  ghost predicate AlwaysRemembers(o: Options, ids: iset<string>) {
    forall calls, c :: PossibleRun(o, calls) && Possible(Run(o, calls), c) && Among(calls, ids) && c.workspace in ids ==>
      Remembers(o, Run(o, calls), c)
  }

  /** Trimmed pairs share a key only where one workspace id continues the other. */
  lemma CollisionContinues(a: Call, c: Call)
    requires !Continues(Trim(a.workspace), Trim(c.workspace)) && !Continues(Trim(c.workspace), Trim(a.workspace))
    ensures Apart(a, Trim(c.workspace), Trim(c.conversation))
  {
    hide Trim, ColonJoin;
    ColonJoinsCollideIff(Trim(a.workspace), Trim(a.conversation), Trim(c.workspace), Trim(c.conversation));
    TrimTrims(a.conversation);
    TrimTrims(c.conversation);
  }

  lemma {:induction false} LatestIsLogged(log: seq<Lookup>, w: string, d: string)
    ensures var l := LatestLookup(log, w, d); l.Some? ==> exists i :: 0 <= i < |log| && log[i] == l.value
  {
    if log != [] {
      var n := |log| - 1;
      LatestIsLogged(log[..n], w, d);
      var l := LatestLookup(log, w, d);
      if l.Some? && l != Some(log[n]) {
        var i :| 0 <= i < n && log[..n][i] == l.value;
        assert log[i] == l.value;
      } else {
        assert log[n] == log[|log| - 1];
      }
    }
  }

  lemma NeverReusingRemembers(o: Options, s: State, c: Call)
    requires Inv(o, s) && Possible(s, c) && NeverReuses(o)
    ensures Remembers(o, s, c)
  {
    hide Insert, Trim, Key;
    var w, d := Trim(c.workspace), Trim(c.conversation);
    LatestIsLogged(s.log, w, d);
    assert Key(w, d) in s.entries ==> Mirrors(s, Key(w, d)) && |s.entries.Keys| > 0;
    if o.maxEntries == 0 && s.log != [] {
      assert s.log[0] in s.log && Key(s.log[0].workspace, s.log[0].conversation) in KeysOf(s.log);
    }
  }

  /** Two ids of which one continues the other, in a run of two calls: the second is answered
      from the first although they name different conversations. */
  lemma ContinuedIdIsConfused(o: Options, v: string, w: string) returns (first: Call, second: Call)
    requires !NeverReuses(o) && Continues(Trim(v), Trim(w))
    ensures first.workspace == v && second.workspace == w
    ensures PossibleRun(o, [first]) && Possible(Run(o, [first]), second)
    ensures !Remembers(o, Run(o, [first]), second)
  {
    hide Trim, ColonJoin, Run, PossibleRun;
    var tv, tw := Trim(v), Trim(w);
    var d := tv[|tw| + 1..] + ":" + "c";
    assert d[|d| - 1] == 'c';
    TrimmedStays("c");
    TrimmedStays(d);
    ColonJoinsCollideIff(tv, "c", tw, d);
    var answer := if o.successTtl > 0 then Found(["alice"]) else Failed("down");
    first := Call(v, "c", 0, answer, 0, []);
    second := Call(w, d, 0, answer, 0, [Key(tv, "c")]);
    FirstCallIsStored(o, first);
    OneLookup(Lookup(tv, "c", 0, answer), tw, d);
  }

  lemma FirstCallIsStored(o: Options, c: Call)
    requires o.maxEntries > 0 && Trim(c.conversation) != "" && c.now <= c.later
    ensures var w, d := Trim(c.workspace), Trim(c.conversation);
      && PossibleRun(o, [c])
      && Run(o, [c]) == State(map[Key(w, d) := Stored(c.answer, c.later)], [Lookup(w, d, c.later, c.answer)], c.later)
  {
    hide Trim, Key, Stored;
    assert [c][..0] == [];
    assert Run(o, []) == State(map[], [], 0);
  }

  lemma OneLookup(l: Lookup, w: string, d: string)
    requires l.workspace != w
    ensures LatestLookup([l], w, d) == None
  {
    assert [l][..0] == [];
  }

  /** For every set of workspace ids and every setting of the cache: all calls of all runs behave
      as they should if and only if no id of the set continues another at a colon, or the
      settings keep the cache from ever being used. */
  lemma AlwaysRemembersIff(o: Options, ids: iset<string>)
    ensures AlwaysRemembers(o, ids) <==> NeverReuses(o) || NoneContinues(ids)
  {
    hide Remembers, Possible, PossibleRun, Run, NeverReuses, Continues, Trim, Apart;
    if NeverReuses(o) || NoneContinues(ids) {
      forall calls, c | PossibleRun(o, calls) && Possible(Run(o, calls), c) && Among(calls, ids) && c.workspace in ids
        ensures Remembers(o, Run(o, calls), c)
      {
        if NeverReuses(o) {
          RunKeeps(o, calls);
          NeverReusingRemembers(o, Run(o, calls), c);
        } else {
          forall i | 0 <= i < |calls| ensures Apart(calls[i], Trim(c.workspace), Trim(c.conversation)) {
            CollisionContinues(calls[i], c);
          }
          ResolveRemembers(o, calls, c);
        }
      }
    } else {
      var v, w :| v in ids && w in ids && Continues(Trim(v), Trim(w));
      var first, second := ContinuedIdIsConfused(o, v, w);
      assert Among([first], ids);
    }
  }

  /** In particular, colon-free workspace ids are safe. */
  lemma ColonFreeIdsRemember(o: Options, ids: iset<string>)
    requires forall w :: w in ids ==> ':' !in Trim(w)
    ensures AlwaysRemembers(o, ids)
  {
    hide AlwaysRemembers, NeverReuses, Trim;
    AlwaysRemembersIff(o, ids);
  }

  /** With a colon in a workspace id the promise fails: the participants of one conversation
      are returned for another that was never looked up. */
  lemma ColonConfusesConversations()
    ensures var o := Options(SUCCESS_TTL, FAILURE_TTL, MAX_ENTRIES);
            var first := Call("a:b", "c", 0, Found(["alice"]), 0, []);
            var second := Call("a", "b:c", 1, Found(["bob"]), 1, ["a:b:c"]);
            && PossibleRun(o, [first]) && Possible(Run(o, [first]), second)
            && Step(o, Run(o, [first]), second).1 == Listed(["alice"])
            && LatestLookup(Run(o, [first]).log, "a", "b:c") == None
  {
    var o := Options(SUCCESS_TTL, FAILURE_TTL, MAX_ENTRIES);
    var first := Call("a:b", "c", 0, Found(["alice"]), 0, []);
    var second := Call("a", "b:c", 1, Found(["bob"]), 1, ["a:b:c"]);
    assert [first][..0] == [];
    assert Run(o, []) == State(map[], [], 0);
    assert Trim("a:b") == "a:b" && Trim("c") == "c" && Trim("a") == "a" && Trim("b:c") == "b:c";
    assert Key("a:b", "c") == "a:b:c" == Key("a", "b:c");
    assert Run(o, [first]) == Step(o, Run(o, []), first).0;
  }

  // ---- the cache as the source holds it -------------------------------------------------

  class DmParticipantsCache {
    var entries: map<string, CacheEntry>
    var successTtl: nat
    var failureTtl: nat
    var maxEntries: nat
    ghost var log: seq<Lookup>
    ghost var clock: nat

    ghost function Settings(): Options
      reads this
    {
      Options(successTtl, failureTtl, maxEntries)
    }

    ghost function View(): State
      reads this
    {
      State(entries, log, clock)
    }

    constructor ()
      ensures Settings() == Options(30_000, 5_000, 8192)
      ensures View() == State(map[], [], 0) && Inv(Settings(), View())
    {
      this.entries := map[];
      this.successTtl, this.failureTtl, this.maxEntries := SUCCESS_TTL, FAILURE_TTL, MAX_ENTRIES;
      this.log, this.clock := [], 0;
      new;
      assert KeysOf([]) == {};
    }

    constructor WithOptions(successTtl: nat, failureTtl: nat, maxEntries: nat)
      ensures Settings() == Options(successTtl, failureTtl, maxEntries)
      ensures View() == State(map[], [], 0) && Inv(Settings(), View())
    {
      this.entries := map[];
      this.successTtl, this.failureTtl, this.maxEntries := successTtl, failureTtl, maxEntries;
      this.log, this.clock := [], 0;
      new;
      assert KeysOf([]) == {};
    }

    /** Forgets every answer, as a client that has made no lookup yet. */
    method Clear()
      modifies this`entries, this`log
      ensures View() == State(map[], [], old(clock)) && Inv(Settings(), View())
    {
      entries, log := map[], [];
      assert KeysOf([]) == {};
    }

    method InsertEntry(key: string, entry: CacheEntry, order: seq<string>)
      modifies this`entries
      ensures entries == Insert(Settings(), old(entries), order, key, entry)
    {
      if maxEntries == 0 { return; }
      if key !in entries && |entries| >= maxEntries {
        var oldest := Oldest(entries, order);
        if oldest.Some? { entries := entries - {oldest.value}; }
      }
      entries := entries[key := entry];
    }

    method Resolve(c: Call) returns (r: Reply)
      requires Inv(Settings(), View()) && Possible(View(), c)
      modifies this`entries, this`log, this`clock
      ensures (View(), r) == Step(Settings(), old(View()), c)
      ensures Inv(Settings(), View())
    {
      hide Insert, Trim, Key, Inv, Possible;
      StepKeeps(Settings(), View(), c);
      var workspace, conversation := Trim(c.workspace), Trim(c.conversation);
      clock := c.now;
      if conversation == "" { return Listed([]); }
      var key := Key(workspace, conversation);
      if key in entries {
        match entries[key]
        case Success(fetchedAt, participants) =>
          if c.now - fetchedAt < successTtl { return Listed(participants); }
        case Failure(failedAt) =>
          if c.now - failedAt < failureTtl { return Listed([]); }
      }
      log := log + [Lookup(workspace, conversation, c.later, c.answer)];
      clock := c.later;
      match c.answer
      case Found(participants) =>
        InsertEntry(key, Success(c.later, participants), c.order);
        r := Listed(participants);
      case Failed(error) =>
        InsertEntry(key, Failure(c.later), c.order);
        r := Errored(error);
    }

    method ResolveOrEmpty(c: Call) returns (participants: seq<string>)
      requires Inv(Settings(), View()) && Possible(View(), c)
      modifies this`entries, this`log, this`clock
      ensures var (t, r) := Step(Settings(), old(View()), c);
              View() == t && participants == (if r.Listed? then r.participants else [])
      ensures Inv(Settings(), View())
    {
      var r := Resolve(c);
      participants := if r.Listed? then r.participants else [];
    }
  }
}
