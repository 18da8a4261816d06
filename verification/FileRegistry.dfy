/**
 The file registry: a cache keyed by the file's modification time, read while an
 external writer replaces the file. A history is the sequence of versions the file
 goes through; a moment is the index of the version then current. Lookups of one
 process do not overlap, but writes may fall between a lookup's stat and its read.
 */
module FileRegistry {
  import opened Wrappers
  import opened Domain

  /** What a stat and a read of the path find; `entries` is None when the text does
      not parse or an entry does not validate. */
  datatype Version =
    | Missing
    | File(mtime: real, entries: Option<seq<RegisteredAgent>>)

  type History = seq<Version>

  type Agents = map<string, RegisteredAgent>

  /** The cache: the parsed file and the mtime it was stored under. */
  datatype Cache = Empty | Loaded(agents: Agents, mtime: real)

  datatype Lookup = Lookup(id: string, statAt: nat, readAt: nat)

  datatype Outcome = Raised | Answered(agent: Option<RegisteredAgent>)

  predicate Parses(v: Version) {
    v.File? && v.entries.Some?
  }

  function Index(entries: seq<RegisteredAgent>): Agents {
    if entries == [] then map[]
    else var last := entries[|entries| - 1]; Index(entries[..|entries| - 1])[last.spiffeId := last]
  }

  function Get(agents: Agents, id: string): Option<RegisteredAgent> {
    if id in agents then Some(agents[id]) else None
  }

  /** `_load`: the cache afterwards, or None when it raises. */
  function Load(h: History, c: Cache, l: Lookup): (loaded: Option<Cache>)
    requires l.statAt < |h| && l.readAt < |h|
    ensures loaded.Some? ==> loaded.value.Loaded?
  {
    if h[l.statAt].Missing? then None
    else if c.Loaded? && h[l.statAt].mtime == c.mtime then Some(c)
    else if Parses(h[l.readAt]) then Some(Loaded(Index(h[l.readAt].entries.value), h[l.statAt].mtime))
    else None
  }

  function After(h: History, c: Cache, l: Lookup): Cache
    requires l.statAt < |h| && l.readAt < |h|
  {
    match Load(h, c, l)
    case None => c
    case Some(loaded) => loaded
  }

  function Answer(h: History, c: Cache, l: Lookup): Outcome
    requires l.statAt < |h| && l.readAt < |h|
  {
    match Load(h, c, l)
    case None => Raised
    case Some(loaded) => Answered(Get(loaded.agents, l.id))
  }

  /** Lookups one after another, within the history. */
  predicate Ordered(h: History, ls: seq<Lookup>) {
    && (forall i :: 0 <= i < |ls| ==> ls[i].statAt <= ls[i].readAt < |h|)
    && (forall i, j :: 0 <= i < j < |ls| ==> ls[i].readAt <= ls[j].statAt)
  }

  /** The cache after those lookups, starting from an empty one. */
  function Run(h: History, ls: seq<Lookup>): Cache
    requires Ordered(h, ls)
    decreases |ls|
  {
    if ls == [] then Empty
    else After(h, Run(h, ls[..|ls| - 1]), ls[|ls| - 1])
  }

  /** What the last of them answers. */
  function LastOutcome(h: History, ls: seq<Lookup>): Outcome
    requires Ordered(h, ls) && ls != []
  {
    Answer(h, Run(h, ls[..|ls| - 1]), ls[|ls| - 1])
  }

  /* ---- What an answer should be ---- */

  ghost predicate LastAt(entries: seq<RegisteredAgent>, id: string, i: int) {
    0 <= i < |entries| && entries[i].spiffeId == id && forall j :: i < j < |entries| ==> entries[j].spiffeId != id
  }

  /** The file's entry for `id`; the last one, when several carry that id. */
  ghost predicate IsEntry(entries: seq<RegisteredAgent>, id: string, agent: Option<RegisteredAgent>) {
    match agent
    case None => forall i :: 0 <= i < |entries| ==> entries[i].spiffeId != id
    case Some(a) => exists i :: LastAt(entries, id, i) && entries[i] == a
  }

  lemma {:induction false} IndexFindsTheEntry(entries: seq<RegisteredAgent>, id: string)
    ensures IsEntry(entries, id, Get(Index(entries), id))
  {
    if entries == [] {
    } else {
      var front, last := entries[..|entries| - 1], entries[|entries| - 1];
      IndexFindsTheEntry(front, id);
      hide Index;
      IndexOfLast(entries);
      if last.spiffeId == id {
        assert LastAt(entries, id, |front|);
      } else if id in Index(front) {
        var i :| LastAt(front, id, i) && front[i] == Index(front)[id];
        assert LastAt(entries, id, i);
      }
    }
  }

  lemma IndexOfLast(entries: seq<RegisteredAgent>)
    requires entries != []
    ensures var last := entries[|entries| - 1];
      Index(entries) == Index(entries[..|entries| - 1])[last.spiffeId := last]
  {
  }

  lemma EntryIsUnique(entries: seq<RegisteredAgent>, id: string, a: Option<RegisteredAgent>, b: Option<RegisteredAgent>)
    requires IsEntry(entries, id, a) && IsEntry(entries, id, b)
    ensures a == b
  {
  }

  /** The lookup answers from a version current at some moment during it. */
  ghost predicate Linearizes(h: History, l: Lookup, o: Outcome)
    requires l.statAt <= l.readAt < |h|
  {
    o.Raised? ||
    exists k :: l.statAt <= k <= l.readAt && Parses(h[k]) && IsEntry(h[k].entries.value, l.id, o.agent)
  }

  /** Every lookup of every schedule does. */
  ghost predicate AlwaysLinearizes(h: History) {
    forall ls: seq<Lookup> | Ordered(h, ls) && ls != [] :: Linearizes(h, ls[|ls| - 1], LastOutcome(h, ls))
  }

  /** When the mtime of version `i` shows again at `j`, whatever parsed in between
      indexes the same agents as version `j`. */
  ghost predicate MtimesAreHonest(h: History) {
    forall i, k, j :: 0 <= i <= k < j < |h| ==> HonestAt(h, i, k, j)
  }

  ghost predicate HonestAt(h: History, i: nat, k: nat, j: nat)
    requires i < |h| && k < |h| && j < |h|
  {
    h[i].File? && h[j].File? && h[i].mtime == h[j].mtime && Parses(h[k])
    ==> Parses(h[j]) && Index(h[k].entries.value) == Index(h[j].entries.value)
  }

  /** A cache that some lookup filled: stat at `i`, read at `k`. */
  ghost predicate FilledBy(h: History, c: Cache, i: nat, k: nat) {
    && i <= k < |h| && h[i].File? && Parses(h[k])
    && c == Loaded(Index(h[k].entries.value), h[i].mtime)
  }

  lemma {:induction false} CacheWasFilled(h: History, ls: seq<Lookup>) returns (i: nat, k: nat)
    requires Ordered(h, ls) && Run(h, ls).Loaded?
    ensures FilledBy(h, Run(h, ls), i, k)
    ensures exists n :: 0 <= n < |ls| && k == ls[n].readAt
    decreases |ls|
  {
    var front, l := ls[..|ls| - 1], ls[|ls| - 1];
    var before := Run(h, front);
    if Run(h, ls) == before {
      i, k := CacheWasFilled(h, front);
      var n :| 0 <= n < |front| && k == front[n].readAt;
      assert ls[n].readAt == k;
    } else {
      i, k := l.statAt, l.readAt;
    }
  }

  lemma HonestMtimesLinearize(h: History, ls: seq<Lookup>)
    requires MtimesAreHonest(h) && Ordered(h, ls) && ls != []
    ensures Linearizes(h, ls[|ls| - 1], LastOutcome(h, ls))
  {
    var front, l := ls[..|ls| - 1], ls[|ls| - 1];
    var c := Run(h, front);
    if LastOutcome(h, ls).Answered? {
      var m := l.readAt;
      if c.Loaded? && h[l.statAt].mtime == c.mtime {
        var i, k := CacheWasFilled(h, front);
        m := l.statAt;
        assert k < m ==> HonestAt(h, i, k, m);
      }
      assert Parses(h[m]) && LastOutcome(h, ls).agent == Get(Index(h[m].entries.value), l.id);
      IndexFindsTheEntry(h[m].entries.value, l.id);
    }
  }

  /** A cache filled by a stat at `i` and a read at `k` answers at `j`, while the
      mtime is the same. */
  lemma SecondLookupIsCached(h: History, i: nat, k: nat, j: nat, id: string)
    requires i <= k < j < |h| && h[i].File? && h[j].File? && h[i].mtime == h[j].mtime && Parses(h[k])
    ensures var ls := [Lookup(id, i, k), Lookup(id, j, j)];
      Ordered(h, ls) && LastOutcome(h, ls) == Answered(Get(Index(h[k].entries.value), id))
  {
    hide Index;
    var first := [Lookup(id, i, k)];
    var ls := first + [Lookup(id, j, j)];
    assert ls == [Lookup(id, i, k), Lookup(id, j, j)] && ls[..1] == first && first[..0] == [];
    assert Run(h, first) == Loaded(Index(h[k].entries.value), h[i].mtime);
  }

  /** Otherwise some lookup answers from a version that is no longer current. */
  lemma DishonestMtimesShow(h: History, i: nat, k: nat, j: nat)
    requires i <= k < j < |h| && !HonestAt(h, i, k, j)
    ensures !AlwaysLinearizes(h)
  {
    hide Index, Run, IsEntry, LastOutcome;
    var filled := Index(h[k].entries.value);
    var id := "";
    if Parses(h[j]) {
      id := DiffersAt(filled, Index(h[j].entries.value));
      IndexFindsTheEntry(h[j].entries.value, id);
    }
    SecondLookupIsCached(h, i, k, j, id);
    var ls := [Lookup(id, i, k), Lookup(id, j, j)];
    if Linearizes(h, ls[1], LastOutcome(h, ls)) {
      EntryIsUnique(h[j].entries.value, id, Get(filled, id), Get(Index(h[j].entries.value), id));
      assert false;
    }
  }

  lemma DiffersAt(a: Agents, b: Agents) returns (id: string)
    requires a != b
    ensures Get(a, id) != Get(b, id)
  {
    if id0 :| id0 in a && Get(a, id0) != Get(b, id0) {
      id := id0;
    } else {
      id :| id in b && Get(a, id) != Get(b, id);
    }
  }

  /** When a lookup answers, and from what: from the cache, while its mtime is the
      file's; otherwise from a fresh read, if that parses. It raises in no other case
      than a missing file or a read that does not parse. */
  lemma AnswersIff(h: History, c: Cache, l: Lookup, agent: Option<RegisteredAgent>)
    requires l.statAt < |h| && l.readAt < |h|
    ensures var cached := h[l.statAt].File? && c.Loaded? && c.mtime == h[l.statAt].mtime;
      && (Answer(h, c, l).Answered? <==> h[l.statAt].File? && (cached || Parses(h[l.readAt])))
      && (cached ==> Answer(h, c, l) == Answered(Get(c.agents, l.id)) && After(h, c, l) == c)
      && (Answer(h, c, l).Answered? && !cached ==>
            && Answer(h, c, l) == Answered(Get(Index(h[l.readAt].entries.value), l.id))
            && After(h, c, l) == Loaded(Index(h[l.readAt].entries.value), h[l.statAt].mtime)
            && (IsEntry(h[l.readAt].entries.value, l.id, agent) ==> Answer(h, c, l) == Answered(agent)))
  {
    hide Index;
    if Parses(h[l.readAt]) && IsEntry(h[l.readAt].entries.value, l.id, agent) {
      var entries := h[l.readAt].entries.value;
      IndexFindsTheEntry(entries, l.id);
      EntryIsUnique(entries, l.id, agent, Get(Index(entries), l.id));
    }
  }

  /** Lookups linearize against the writers exactly when no mtime is ever reused
      over different content. */
  lemma LinearizesIff(h: History)
    ensures AlwaysLinearizes(h) <==> MtimesAreHonest(h)
  {
    if MtimesAreHonest(h) {
      forall ls: seq<Lookup> | Ordered(h, ls) && ls != []
        ensures Linearizes(h, ls[|ls| - 1], LastOutcome(h, ls))
      {
        HonestMtimesLinearize(h, ls);
      }
    } else {
      var i, k, j :| 0 <= i <= k < j < |h| && !HonestAt(h, i, k, j);
      DishonestMtimesShow(h, i, k, j);
    }
  }

  /** Versions with distinct mtimes are enough. */
  lemma DistinctMtimesLinearize(h: History)
    requires forall i, j :: 0 <= i < j < |h| && h[i].File? && h[j].File? ==> h[i].mtime != h[j].mtime
    ensures AlwaysLinearizes(h)
  {
    LinearizesIff(h);
  }

  /* ---- The adapter ---- */

  class FileAgentRegistry {
    var agents: Option<Agents>
    var loadedMtime: Option<real>

    ghost predicate Valid()
      reads this
    {
      agents.Some? <==> loadedMtime.Some?
    }

    ghost function Contents(): Cache
      requires Valid()
      reads this
    {
      if agents.None? then Empty else Loaded(agents.value, loadedMtime.value)
    }

    constructor ()
      ensures Valid() && Contents() == Empty
    {
      agents, loadedMtime := None, None;
    }

    /** A lookup that raises leaves the cache as it was. */
    method LookUp(h: History, l: Lookup) returns (o: Outcome)
      requires Valid() && l.statAt <= l.readAt < |h|
      modifies this
      ensures Valid() && Contents() == After(h, old(Contents()), l)
      ensures o == Answer(h, old(Contents()), l)
      ensures o.Raised? ==> Contents() == old(Contents())
    {
      if h[l.statAt].Missing? {
        return Raised;
      }
      var mtime := h[l.statAt].mtime;
      if agents.None? || loadedMtime != Some(mtime) {
        if !Parses(h[l.readAt]) {
          return Raised;
        }
        var index := IndexEntries(h[l.readAt].entries.value);
        agents, loadedMtime := Some(index), Some(mtime);
      }
      return Answered(Get(agents.value, l.id));
    }
  }

  method IndexEntries(entries: seq<RegisteredAgent>) returns (index: Agents)
    ensures index == Index(entries)
    ensures forall id :: IsEntry(entries, id, Get(index, id))
  {
    index := map[];
    for i := 0 to |entries|
      invariant index == Index(entries[..i])
    {
      assert entries[..i + 1][..i] == entries[..i];
      index := index[entries[i].spiffeId := entries[i]];
    }
    assert entries[..|entries|] == entries;
    forall id ensures IsEntry(entries, id, Get(index, id)) {
      IndexFindsTheEntry(entries, id);
    }
  }
}
