/** Answering a list of paths from the cache and the daemon, slot by slot. */
module RealiseClient {
  import opened FanOut
  import opened Realise
  import opened RealiseRequest
  import opened Sequences
  import opened Wrappers

  /** The slots that are filled hold the right path; the empty ones are those listed, in ascending order. */
  ghost predicate Slotted(d: Daemon, paths: seq<DerivedPath>, n: nat, out: seq<Option<StorePath>>, missSlots: seq<nat>) {
    && n <= |paths| && |out| == n
    && (forall i | 0 <= i < n && out[i].Some? :: Realisation(d, paths[i]) == Ok(out[i].value))
    && (forall i | 0 <= i < n :: out[i].None? <==> i in missSlots)
    && (forall k | 0 <= k < |missSlots| :: missSlots[k] < n)
  }

  ghost predicate Ascending(s: seq<nat>) {
    forall j, k | 0 <= j < k < |s| :: s[j] < s[k]
  }

  /** A hit that is not confirmed yet. */
  datatype Pending = Pending(slot: nat, path: StorePath)

  ghost predicate AllPending(n: nat, out: seq<Option<StorePath>>, todo: seq<Pending>) {
    |out| == n && forall t | t in todo :: t.slot < n && (out[t.slot].Some? ==> out[t.slot] == Some(t.path))
  }

  /** What is to be confirmed: the hits whose entry says that it was not yet. */
  ghost predicate ToConfirm(cache: Cache, paths: seq<DerivedPath>, n: nat, todo: seq<Pending>)
    requires n <= |paths|
  {
    && (forall t | t in todo :: t.slot < n && Unconfirmed(cache, paths[t.slot]) && t.path == cache[Display(paths[t.slot])].path)
    && (forall i | 0 <= i < n && Unconfirmed(cache, paths[i]) :: Pending(i, cache[Display(paths[i])].path) in todo)
  }

  ghost predicate Unconfirmed(cache: Cache, p: DerivedPath) {
    Display(p) in cache && !cache[Display(p)].confirmed
  }

  lemma SoundAt(d: Daemon, cache: Cache, p: DerivedPath)
    requires Sound(d, cache) && Clean(p) && Display(p) in cache
    ensures Realisation(d, p) == Ok(cache[Display(p)].path)
  {
  }

  /** Looks every path up. */
  method Hits(ghost d: Daemon, cache: Cache, paths: seq<DerivedPath>)
    returns (out: seq<Option<StorePath>>, missSlots: seq<nat>, todo: seq<Pending>)
    requires Sound(d, cache) && forall p | p in paths :: Clean(p)
    ensures Slotted(d, paths, |paths|, out, missSlots) && Ascending(missSlots)
    ensures AllPending(|paths|, out, todo)
    ensures forall i | 0 <= i < |paths| :: out[i].None? <==> Display(paths[i]) !in cache
    ensures forall t | t in todo :: out[t.slot] == Some(t.path)
    ensures ToConfirm(cache, paths, |paths|, todo) && forall i | 0 <= i < |paths| && out[i].Some? :: out[i].value == cache[Display(paths[i])].path
  {
    hide Sound, Realisation, Display, Clean;
    out, missSlots, todo := [], [], [];
    for i := 0 to |paths|
      invariant Slotted(d, paths, i, out, missSlots) && Ascending(missSlots)
      invariant AllPending(i, out, todo)
      invariant forall k | 0 <= k < i :: out[k].None? <==> Display(paths[k]) !in cache
      invariant forall t | t in todo :: out[t.slot] == Some(t.path)
      invariant ToConfirm(cache, paths, i, todo) && forall k | 0 <= k < i && out[k].Some? :: out[k].value == cache[Display(paths[k])].path
    {
      assert paths[i] in paths;
      var key := Display(paths[i]);
      if key in cache {
        SoundAt(d, cache, paths[i]);
        var e := cache[key];
        out := out + [Some(e.path)];
        if !e.confirmed {
          todo := todo + [Pending(i, e.path)];
        }
      } else {
        out := out + [None];
        missSlots := missSlots + [i];
      }
    }
  }

  /** The slots below `len`, each once, in ascending order. */
  method ReorderMisses(missSlots: seq<nat>, len: nat) returns (r: seq<nat>)
    ensures Ascending(r) && forall i :: i in r <==> i in missSlots && i < len
  {
    r := [];
    for i := 0 to len
      invariant Ascending(r) && forall k :: k in r <==> k in missSlots && k < i
      invariant forall k | 0 <= k < |r| :: r[k] < i
    {
      if i in missSlots {
        r := r + [i];
      }
    }
  }

  function At(paths: seq<DerivedPath>, slots: seq<nat>): (r: seq<DerivedPath>)
    requires forall k | 0 <= k < |slots| :: slots[k] < |paths|
    ensures |r| == |slots| && forall k | 0 <= k < |slots| :: r[k] == paths[slots[k]]
  {
    seq(|slots|, k requires 0 <= k < |slots| => paths[slots[k]])
  }

  /** `values` are what asking for each of `paths` gives. */
  ghost predicate Answered(d: Daemon, paths: seq<DerivedPath>, values: seq<StorePath>) {
    |values| == |paths| && forall i | 0 <= i < |paths| :: Realisation(d, paths[i]) == Ok(values[i])
  }

  lemma {:induction false} AskEachAnswers(d: Daemon, paths: seq<DerivedPath>, n: nat)
    requires n <= |paths|
    ensures match Sequential(n, AskOne(d, paths))
            case Ok(vs) => |vs| == n && forall i | 0 <= i < n :: Realisation(d, paths[i]) == Ok(vs[i])
            case Err(e) => exists i :: 0 <= i < n && Realisation(d, paths[i]) == Err(e)
  {
    if n > 0 {
      AskEachAnswers(d, paths, n - 1);
      assert AskOne(d, paths)(n - 1) == Realisation(d, paths[n - 1]);
    }
  }

  /** Puts the paths that were built into the empty slots. */
  method MergeHitsAndMisses(ghost d: Daemon, paths: seq<DerivedPath>, out: seq<Option<StorePath>>,
                            missSlots: seq<nat>, built: seq<StorePath>)
    returns (r: seq<StorePath>)
    requires Slotted(d, paths, |paths|, out, missSlots) && Answered(d, At(paths, missSlots), built)
    ensures Answered(d, paths, r)
  {
    var slots := out;
    for k := 0 to |missSlots|
      invariant |slots| == |paths|
      invariant forall i | 0 <= i < |slots| && slots[i].Some? :: Realisation(d, paths[i]) == Ok(slots[i].value)
      invariant forall i | 0 <= i < |slots| :: slots[i].None? ==> i in missSlots[k..]
    {
      assert missSlots[k] in missSlots && At(paths, missSlots)[k] == paths[missSlots[k]];
      assert forall i :: i in missSlots[k..] ==> i == missSlots[k] || i in missSlots[k + 1..];
      slots := slots[missSlots[k] := Some(built[k])];
    }
    r := seq(|slots|, i requires 0 <= i < |slots| => if slots[i].Some? then slots[i].value else "");
  }

  /** Whether a derivation of the misses has failed before in this run. */
  method FailedEarlier(failed: set<Drv>, misses: seq<DerivedPath>) returns (r: bool)
    ensures r <==> exists p :: p in misses && p.Built? && p.drv in failed
  {
    for i := 0 to |misses|
      invariant forall k | 0 <= k < i :: !(misses[k].Built? && misses[k].drv in failed)
    {
      if misses[i].Built? && misses[i].drv in failed {
        assert misses[i] in misses;
        return true;
      }
    }
    r := false;
  }

  /** The group answers put back in their places. */
  method Scatter(ghost d: Daemon, misses: seq<DerivedPath>, groups: seq<seq<nat>>,
                 results: seq<seq<StorePath>>) returns (built: seq<StorePath>)
    requires Partition(misses, |misses|, groups) && |results| == |groups|
    requires forall g | 0 <= g < |groups| :: (forall k | 0 <= k < |groups[g]| :: groups[g][k] < |misses|) && Answered(d, At(misses, groups[g]), results[g])
    ensures Answered(d, misses, built)
  {
    var bySlot: seq<Option<StorePath>> := seq(|misses|, i => None);
    for g := 0 to |groups|
      invariant |bySlot| == |misses|
      invariant forall i | 0 <= i < |misses| && bySlot[i].Some? :: Realisation(d, misses[i]) == Ok(bySlot[i].value)
      invariant forall i | 0 <= i < |misses| && bySlot[i].None? :: forall h | 0 <= h < g :: i !in groups[h]
    {
      assert Answered(d, At(misses, groups[g]), results[g]);
      for k := 0 to |groups[g]|
        invariant |bySlot| == |misses|
        invariant forall i | 0 <= i < |misses| && bySlot[i].Some? :: Realisation(d, misses[i]) == Ok(bySlot[i].value)
        invariant forall i | 0 <= i < |misses| && bySlot[i].None? :: i !in groups[g][..k] && forall h | 0 <= h < g :: i !in groups[h]
      {
        assert At(misses, groups[g])[k] == misses[groups[g][k]];
        assert groups[g][..k + 1] == groups[g][..k] + [groups[g][k]];
        bySlot := bySlot[groups[g][k] := Some(results[g][k])];
      }
      assert groups[g][..|groups[g]|] == groups[g];
    }
    forall i | 0 <= i < |misses|
      ensures bySlot[i].Some?
    {
      assert Covered(groups, i);
    }
    built := seq(|misses|, i requires 0 <= i < |misses| => if bySlot[i].Some? then bySlot[i].value else "");
  }

  /** What the request for group `g` comes to. */
  function GroupAnswer(reply: Request -> Reply, misses: seq<DerivedPath>,
                       groups: seq<seq<nat>>): nat -> Result<seq<StorePath>, Error> {
    (g: nat) =>
      if g < |groups| && forall k | 0 <= k < |groups[g]| :: groups[g][k] < |misses| then
        RequestAnswer(reply, At(misses, groups[g]))
      else Err(MissingBuildResult)
  }

  /** What a worker does for group `g`: one request, for the paths of that group. */
  method AskGroup(reply: Request -> Reply, misses: seq<DerivedPath>, groups: seq<seq<nat>>, g: nat)
    returns (r: Result<seq<StorePath>, Error>)
    requires g < |groups| && forall k | 0 <= k < |groups[g]| :: groups[g][k] < |misses|
    ensures r == GroupAnswer(reply, misses, groups)(g)
  {
    hide RequestAnswer, OneDerivation, AskEach, Truthful;
    r := BuildPathsUncached(At(misses, groups[g]), reply);
  }

  lemma OneDerivationOfGroup(group: seq<DerivedPath>)
    requires OneGroupOf(group)
    ensures OneDerivation(group)
  {
  }

  /** A group names one derivation, so its request answers as asking for each of its paths would. */
  lemma GroupAnswerRight(d: Daemon, reply: Request -> Reply, misses: seq<DerivedPath>, groups: seq<seq<nat>>, g: nat)
    requires Partition(misses, |misses|, groups) && g < |groups| && forall q :: Truthful(d, q, reply(q))
    ensures forall k | 0 <= k < |groups[g]| :: groups[g][k] < |misses|
    ensures GroupAnswer(reply, misses, groups)(g) == AskEach(d, At(misses, groups[g]))
  {
    hide Partition, RequestAnswer, OneDerivation, AskEach, Truthful, OneGroupOf;
    GroupInRange(misses, groups, g);
    var group := At(misses, groups[g]);
    GroupOneOf(misses, groups, g);
    OneDerivationOfGroup(group);
    RequestAnswerRight(d, reply, group);
  }

  lemma GroupInRange(misses: seq<DerivedPath>, groups: seq<seq<nat>>, g: nat)
    requires Partition(misses, |misses|, groups) && g < |groups|
    ensures forall k | 0 <= k < |groups[g]| :: groups[g][k] < |misses|
  {
    assert GroupOk(misses, |misses|, groups[g]);
  }

  /** The groups can be answered exactly when each of the paths can. */
  lemma GroupAnswers(d: Daemon, reply: Request -> Reply, misses: seq<DerivedPath>, groups: seq<seq<nat>>)
    requires Partition(misses, |misses|, groups) && forall q :: Truthful(d, q, reply(q))
    ensures forall g | 0 <= g < |groups| :: forall k | 0 <= k < |groups[g]| :: groups[g][k] < |misses|
    ensures match Sequential(|groups|, GroupAnswer(reply, misses, groups))
            case Ok(rs) => |rs| == |groups| && forall g | 0 <= g < |groups| :: Answered(d, At(misses, groups[g]), rs[g])
            case Err(e) => e == BuildFailed && exists i :: 0 <= i < |misses| && Realisation(d, misses[i]).Err?
  {
    hide Partition, RequestAnswer, Truthful, Sequential, GroupAnswer, Answered, Realisation;
    forall g | 0 <= g < |groups|
      ensures forall k | 0 <= k < |groups[g]| :: groups[g][k] < |misses|
    {
      GroupInRange(misses, groups, g);
    }
    GroupAnswersUpto(d, reply, misses, groups, |groups|);
  }

  lemma {:induction false} GroupAnswersUpto(d: Daemon, reply: Request -> Reply, misses: seq<DerivedPath>,
                                            groups: seq<seq<nat>>, n: nat)
    requires Partition(misses, |misses|, groups) && forall q :: Truthful(d, q, reply(q))
    requires n <= |groups| && forall g | 0 <= g < |groups| :: forall k | 0 <= k < |groups[g]| :: groups[g][k] < |misses|
    ensures match Sequential(n, GroupAnswer(reply, misses, groups))
            case Ok(rs) => |rs| == n && forall g | 0 <= g < n :: Answered(d, At(misses, groups[g]), rs[g])
            case Err(e) => e == BuildFailed && exists i :: 0 <= i < |misses| && Realisation(d, misses[i]).Err?
  {
    hide Partition, Truthful, GroupAnswer, Realisation, AskEach, Answered;
    if n > 0 {
      GroupAnswersUpto(d, reply, misses, groups, n - 1);
      var group := At(misses, groups[n - 1]);
      GroupAnswerRight(d, reply, misses, groups, n - 1);
      GroupAnswered(d, group);
      if AskEach(d, group).Err? {
        var i :| 0 <= i < |group| && Realisation(d, group[i]).Err?;
        assert group[i] == misses[groups[n - 1][i]];
      }
    }
  }

  lemma GroupAnswered(d: Daemon, group: seq<DerivedPath>)
    ensures AskEach(d, group).Ok? ==> Answered(d, group, AskEach(d, group).value)
    ensures AskEach(d, group).Err? ==> AskEach(d, group) == Err(BuildFailed) && exists i :: 0 <= i < |group| && Realisation(d, group[i]).Err?
  {
    AskEachAnswers(d, group, |group|);
  }

  /** The derivations of a request that failed. */
  function Drvs(paths: seq<DerivedPath>): set<Drv> {
    set p | p in paths && p.Built? :: p.drv
  }

  /** A failed request names only derivations that are broken. */
  lemma FailedGroup(d: Daemon, paths: seq<DerivedPath>)
    requires OneGroupOf(paths) && exists p :: p in paths && Realisation(d, p).Err?
    ensures forall drv | drv in Drvs(paths) :: d.broken(DrvKey(drv))
  {
    var p :| p in paths && Realisation(d, p).Err?;
    forall drv | drv in Drvs(paths)
      ensures d.broken(DrvKey(drv))
    {
      var q :| q in paths && q.Built? && q.drv == drv;
      assert p == q || Together(p, q);
    }
  }

  /** What one request holds: outputs of one derivation, or a single path. */
  ghost predicate OneGroupOf(paths: seq<DerivedPath>) {
    forall p, q | p in paths && q in paths :: p == q || Together(p, q)
  }

  lemma GroupOneOf(misses: seq<DerivedPath>, groups: seq<seq<nat>>, g: nat)
    requires Partition(misses, |misses|, groups) && g < |groups|
    requires forall k | 0 <= k < |groups[g]| :: groups[g][k] < |misses|
    ensures OneGroupOf(At(misses, groups[g]))
  {
    assert GroupOk(misses, |misses|, groups[g]);
    var group := At(misses, groups[g]);
    forall i, j | 0 <= i < |group| && 0 <= j < |group|
      ensures group[i] == group[j] || Together(group[i], group[j])
    {
      assert i > 0 ==> Together(misses[groups[g][0]], misses[groups[g][i]]);
      assert j > 0 ==> Together(misses[groups[g][0]], misses[groups[g][j]]);
    }
  }

  /** The derivations of a request that are noted as failed: all of them, if the daemon said that a build failed. */
  function NoteFailure(paths: seq<DerivedPath>, r: Result<seq<StorePath>, Error>): set<Drv> {
    if r == Err(BuildFailed) then Drvs(paths) else {}
  }

  lemma NotedBroken(d: Daemon, paths: seq<DerivedPath>)
    requires OneGroupOf(paths)
    ensures forall drv | drv in NoteFailure(paths, AskEach(d, paths)) :: d.broken(DrvKey(drv))
  {
    hide OneGroupOf, Drvs, Realisation, AskEach;
    GroupAnswered(d, paths);
    if AskEach(d, paths).Err? {
      var i :| 0 <= i < |paths| && Realisation(d, paths[i]).Err?;
      assert paths[i] in paths;
      FailedGroup(d, paths);
    }
  }

  /**
   What the client does for paths the cache does not hold, and the derivations it
   notes as failed: one request for each derivation, several at once.
   */
  method Realised(ghost d: Daemon, reply: Request -> Reply, width: nat, misses: seq<DerivedPath>)
    returns (r: Result<seq<StorePath>, Error>, noted: set<Drv>)
    requires forall q :: Truthful(d, q, reply(q))
    ensures r.Ok? ==> Answered(d, misses, r.value) && noted == {}
    ensures r.Err? ==> r.error == BuildFailed && exists p :: p in misses && Realisation(d, p).Err?
    ensures forall drv | drv in noted :: d.broken(DrvKey(drv))
  {
    hide Partition, OneDerivation, Realisation, Truthful, Sequential, Collect, RequestAnswer, GroupAnswer, AskEach;
    hide OneGroupOf, NoteFailure, Answered;
    var groups := SplitByDerivation(misses);
    if |groups| <= 1 {
      OneGroupWhole(misses, groups);
      OneDerivationOfGroup(misses);
      r := BuildPathsUncached(misses, reply);
      GroupAnswered(d, misses);
      NotedBroken(d, misses);
      NothingNoted(misses, r);
      if r.Err? {
        ghost var i :| 0 <= i < |misses| && Realisation(d, misses[i]).Err?;
        assert misses[i] in misses;
      }
      return r, NoteFailure(misses, r);
    }
    GroupAnswers(d, reply, misses, groups);
    var results, seen := ForEachBounded(|groups|, width, GroupAnswer(reply, misses, groups));
    noted := NoteEach(d, reply, misses, groups, seen);
    if results.Err? {
      ghost var i :| 0 <= i < |misses| && Realisation(d, misses[i]).Err?;
      assert misses[i] in misses;
      return Err(results.error), noted;
    }
    FailsBefore(|groups|, GroupAnswer(reply, misses, groups));
    var built := Scatter(d, misses, groups, results.value);
    r := Ok(built);
  }

  lemma NothingNoted(paths: seq<DerivedPath>, r: Result<seq<StorePath>, Error>)
    ensures r != Err(BuildFailed) ==> NoteFailure(paths, r) == {}
  {
  }

  lemma OneGroupWhole(misses: seq<DerivedPath>, groups: seq<seq<nat>>)
    requires Partition(misses, |misses|, groups) && |groups| <= 1
    ensures OneGroupOf(misses)
  {
    forall i, j | 0 <= i < |misses| && 0 <= j < |misses|
      ensures misses[i] == misses[j] || Together(misses[i], misses[j])
    {
      assert Covered(groups, i) && Covered(groups, j);
      assert GroupOk(misses, |misses|, groups[0]);
      var k :| 0 <= k < |groups[0]| && groups[0][k] == i;
      var l :| 0 <= l < |groups[0]| && groups[0][l] == j;
      assert k > 0 ==> Together(misses[groups[0][0]], misses[i]);
      assert l > 0 ==> Together(misses[groups[0][0]], misses[j]);
    }
  }

  /** The derivations of every group that was asked for and failed, whichever worker it was with. */
  method NoteEach(ghost d: Daemon, ghost reply: Request -> Reply, misses: seq<DerivedPath>, groups: seq<seq<nat>>,
                  seen: seq<Option<Result<seq<StorePath>, Error>>>)
    returns (noted: set<Drv>)
    requires Partition(misses, |misses|, groups) && forall q :: Truthful(d, q, reply(q))
    requires |seen| == |groups|
    requires forall g | 0 <= g < |groups| && seen[g].Some? :: seen[g] == Some(GroupAnswer(reply, misses, groups)(g))
    ensures forall drv | drv in noted :: d.broken(DrvKey(drv))
    ensures forall g | 0 <= g < |groups| && seen[g] == Some(Err(BuildFailed)) :: forall k | 0 <= k < |groups[g]| ::
                                                                                   groups[g][k] < |misses| && (misses[groups[g][k]].Built? ==> misses[groups[g][k]].drv in noted)
    ensures noted == {} || exists g :: 0 <= g < |groups| && seen[g] == Some(Err(BuildFailed))
  {
    hide Partition, Truthful, GroupAnswer, AskEach, OneGroupOf;
    noted := {};
    for g := 0 to |groups|
      invariant forall drv | drv in noted :: d.broken(DrvKey(drv))
      invariant noted == {} || exists h :: 0 <= h < g && seen[h] == Some(Err(BuildFailed))
      invariant forall h | 0 <= h < g && seen[h] == Some(Err(BuildFailed)) :: forall k | 0 <= k < |groups[h]| ::
                                                                                groups[h][k] < |misses| && (misses[groups[h][k]].Built? ==> misses[groups[h][k]].drv in noted)
    {
      if seen[g].Some? {
        GroupAnswerRight(d, reply, misses, groups, g);
        GroupOneOf(misses, groups, g);
        var group := At(misses, groups[g]);
        NotedBroken(d, group);
        assert forall k | 0 <= k < |group| :: group[k] in group && group[k] == misses[groups[g][k]];
        noted := noted + NoteFailure(group, seen[g].value);
      }
    }
  }

  /** A cache with some answers added stays sound. */
  lemma SoundMore(d: Daemon, cache: Cache, p: DerivedPath, e: Entry)
    requires Sound(d, cache) && Clean(p) && Realisation(d, p) == Ok(e.path)
    ensures Sound(d, cache[Display(p) := e])
  {
    forall q | Clean(q) && Display(q) in cache[Display(p) := e]
      ensures Realisation(d, q) == Ok(cache[Display(p) := e][Display(q)].path)
    {
      if Display(q) == Display(p) {
        DisplayInjective(p, q);
      }
    }
  }

  lemma SoundLess(d: Daemon, cache: Cache, key: string)
    requires Sound(d, cache)
    ensures Sound(d, cache - {key})
  {
  }

  lemma SoundConfirmed(d: Daemon, cache: Cache, key: string)
    requires Sound(d, cache) && key in cache
    ensures Sound(d, cache[key := Entry(cache[key].path, true)])
  {
  }

  /** No other thread writes. */
  ghost predicate Undisturbed(others: nat -> Option<Cache>) {
    forall k :: others(k).None?
  }

  /** The hit at slot `i` was looked at and is gone. */
  ghost predicate Vanished(todo: seq<Pending>, present: StorePath -> bool, i: nat) {
    exists t :: t in todo && t.slot == i && !present(t.path)
  }

  lemma VanishedSnoc(todo: seq<Pending>, t: Pending, present: StorePath -> bool)
    ensures forall i: nat :: Vanished(todo + [t], present, i) <==> Vanished(todo, present, i) || (t.slot == i && !present(t.path))
  {
    assert forall x :: x in todo + [t] <==> x in todo || x == t;
  }

  /** If the path that was looked at is still the one cached, it is marked. */
  ghost predicate Marked(cache: Cache, key: string, path: StorePath) {
    key in cache && cache[key].path == path ==> cache[key].confirmed
  }

  /** The same path, and no mark lost. */
  ghost predicate Moved(e: Entry, e': Entry) {
    e'.path == e.path && (e.confirmed ==> e'.confirmed)
  }

  /** What the client finds in the cache when it begins. */
  ghost function Seen(cache: Cache, others: nat -> Option<Cache>): Cache {
    if others(0).Some? then others(0).value else cache
  }

  /** `p` has to be asked for: it is not cached, or what is cached was never confirmed and is gone. */
  ghost predicate Gone(cache: Cache, present: StorePath -> bool, p: DerivedPath) {
    Display(p) !in cache || (Unconfirmed(cache, p) && !present(cache[Display(p)].path))
  }

  /** `p` is cached with its path, which is marked as there. */
  ghost predicate Holds(d: Daemon, cache: Cache, p: DerivedPath) {
    Display(p) in cache && cache[Display(p)].confirmed && Realisation(d, p) == Ok(cache[Display(p)].path)
  }

  lemma Shifted(others: nat -> Option<Cache>)
    ensures Undisturbed(others) ==> others(0).None? && Undisturbed((k: nat) => others(k + 1))
  {
  }

  lemma NotDisturbed(others: nat -> Option<Cache>, k: nat)
    ensures Undisturbed(others) ==> others(k).None?
  {
  }

  lemma GoneMisses(seen: Cache, paths: seq<DerivedPath>, todo: seq<Pending>, present: StorePath -> bool,
                   hits: seq<Option<StorePath>>, out: seq<Option<StorePath>>)
    requires ToConfirm(seen, paths, |paths|, todo) && |hits| == |out| == |paths|
    requires forall i | 0 <= i < |paths| :: hits[i].None? <==> Display(paths[i]) !in seen
    requires forall i | 0 <= i < |paths| :: out[i] == if Vanished(todo, present, i) then None else hits[i]
    ensures forall i | 0 <= i < |paths| && Gone(seen, present, paths[i]) :: out[i].None?
  {
    forall i | 0 <= i < |paths| && Gone(seen, present, paths[i])
      ensures out[i].None?
    {
      if Display(paths[i]) in seen {
        assert Pending(i, seen[Display(paths[i])].path) in todo;
      }
    }
  }

  /** With no other thread about, every hit that stands is marked. */
  lemma HitsHeld(d: Daemon, seen: Cache, cache: Cache, paths: seq<DerivedPath>, todo: seq<Pending>,
                 present: StorePath -> bool, out: seq<Option<StorePath>>)
    requires ToConfirm(seen, paths, |paths|, todo) && |out| == |paths|
    requires forall i | 0 <= i < |paths| && out[i].Some? :: Realisation(d, paths[i]) == Ok(out[i].value)
    requires forall i | 0 <= i < |paths| && out[i].Some? ::
               Display(paths[i]) in seen && out[i].value == seen[Display(paths[i])].path && !Vanished(todo, present, i)
    requires forall t | t in todo && present(t.path) :: Marked(cache, Display(paths[t.slot]), t.path)
    requires forall key | key in cache :: key in seen && Moved(seen[key], cache[key])
    requires forall key | key in seen && key !in cache :: exists t :: t in todo && Display(paths[t.slot]) == key && !present(t.path)
    ensures forall i | 0 <= i < |paths| && out[i].Some? :: Holds(d, cache, paths[i])
  {
    hide Realisation;
    forall i | 0 <= i < |paths| && out[i].Some?
      ensures Holds(d, cache, paths[i])
    {
      var key := Display(paths[i]);
      if !seen[key].confirmed {
        assert Pending(i, seen[key].path) in todo;
      }
      assert forall t | t in todo && Display(paths[t.slot]) == key :: present(t.path);
    }
  }

  lemma HeldEach(d: Daemon, cache: Cache, paths: seq<DerivedPath>, misses: seq<DerivedPath>, missSlots: seq<nat>)
    requires |misses| == |missSlots| && forall k | 0 <= k < |missSlots| :: missSlots[k] < |paths| && misses[k] == paths[missSlots[k]]
    requires forall p | p in misses :: Holds(d, cache, p)
    ensures forall i | i in missSlots :: i < |paths| && Holds(d, cache, paths[i])
  {
    hide Holds;
    forall i | i in missSlots
      ensures i < |paths| && Holds(d, cache, paths[i])
    {
      var k :| 0 <= k < |missSlots| && missSlots[k] == i;
      assert misses[k] in misses;
    }
  }

  lemma NoneGone(d: Daemon, seen: Cache, paths: seq<DerivedPath>, present: StorePath -> bool, out: seq<Option<StorePath>>)
    requires ToConfirm(seen, paths, |paths|, []) && |out| == |paths|
    requires forall i | 0 <= i < |paths| :: out[i].None? <==> Display(paths[i]) !in seen
    requires forall i | 0 <= i < |paths| && out[i].Some? :: out[i].value == seen[Display(paths[i])].path
    requires forall i | 0 <= i < |paths| && out[i].Some? :: Realisation(d, paths[i]) == Ok(out[i].value)
    ensures forall i | 0 <= i < |paths| && Gone(seen, present, paths[i]) :: out[i].None?
    ensures forall i | 0 <= i < |paths| && out[i].Some? :: Holds(d, seen, paths[i])
  {
  }

  lemma HoldsMore(d: Daemon, cache: Cache, p: DerivedPath, path: StorePath)
    requires Clean(p) && Realisation(d, p) == Ok(path)
    ensures Holds(d, cache[Display(p) := Entry(path, true)], p)
    ensures forall q | Clean(q) && Holds(d, cache, q) :: Holds(d, cache[Display(p) := Entry(path, true)], q)
  {
    forall q | Clean(q) && Holds(d, cache, q)
      ensures Holds(d, cache[Display(p) := Entry(path, true)], q)
    {
      if Display(q) == Display(p) {
        DisplayInjective(p, q);
      }
    }
  }

  class Client {
    var realised: Cache
    var failed: set<Drv>
    const poolMax: nat

    /** The cache tells the truth, and so does the list of failures. */
    ghost predicate Valid(d: Daemon)
      reads this
    {
      Sound(d, realised) && forall drv | drv in failed :: d.broken(DrvKey(drv))
    }

    constructor (poolMax: nat, ghost d: Daemon)
      ensures Valid(d) && realised == map[] && failed == {}
    {
      realised, failed := map[], {};
      this.poolMax := poolMax;
    }

    /** Takes the lock: other threads may have put any sound cache in the meantime. */
    method Lock(ghost d: Daemon, others: Option<Cache>)
      requires Valid(d) && (others.Some? ==> Sound(d, others.value))
      modifies `realised
      ensures Valid(d) && realised == if others.Some? then others.value else old(realised)
    {
      if others.Some? {
        realised := others.value;
      }
    }

    /** Marks the paths that were looked at, where they are still the ones cached. */
    method Mark(ghost d: Daemon, confirmed: seq<(string, StorePath)>)
      requires Valid(d)
      modifies `realised
      ensures Valid(d) && realised.Keys == old(realised).Keys
      ensures forall c | c in confirmed :: Marked(realised, c.0, c.1)
      ensures forall key | key in realised :: Moved(old(realised)[key], realised[key])
    {
      hide Realisation, Sound;
      for k := 0 to |confirmed|
        invariant Valid(d) && realised.Keys == old(realised).Keys
        invariant forall c | c in confirmed[..k] :: Marked(realised, c.0, c.1)
        invariant forall key | key in realised :: Moved(old(realised)[key], realised[key])
      {
        assert confirmed[..k + 1] == confirmed[..k] + [confirmed[k]];
        var key, stated := confirmed[k].0, confirmed[k].1;
        if key in realised && realised[key].path == stated {
          SoundConfirmed(d, realised, key);
          realised := realised[key := Entry(stated, true)];
        }
      }
      assert confirmed[..|confirmed|] == confirmed;
    }

    /** Looks at the hits whose existence was never confirmed, and turns those that are gone into misses. */
    method Confirm(ghost d: Daemon, paths: seq<DerivedPath>, out: seq<Option<StorePath>>, missSlots: seq<nat>,
                   todo: seq<Pending>,
                   present: StorePath -> bool, others: nat -> Option<Cache>)
      returns (out': seq<Option<StorePath>>, missSlots': seq<nat>)
      requires Valid(d) && forall k :: others(k).Some? ==> Sound(d, others(k).value)
      requires Slotted(d, paths, |paths|, out, missSlots) && AllPending(|paths|, out, todo)
      modifies `realised
      ensures Valid(d) && Slotted(d, paths, |paths|, out', missSlots') && Ascending(missSlots')
      ensures forall i | 0 <= i < |paths| :: out'[i] == if Vanished(todo, present, i) then None else out[i]
      ensures forall t | t in todo && present(t.path) :: Marked(realised, Display(paths[t.slot]), t.path)
      ensures forall key | key in realised && Undisturbed(others) :: key in old(realised) && Moved(old(realised)[key], realised[key])
      ensures forall key | key in old(realised) && Undisturbed(others) && key !in realised ::
                exists t :: t in todo && Display(paths[t.slot]) == key && !present(t.path)
      ensures forall t | t in todo && Undisturbed(others) && !present(t.path) :: Display(paths[t.slot]) !in realised
    {
      hide Realisation, Sound;
      out', missSlots' := out, missSlots;
      var confirmed: seq<(string, StorePath)> := [];
      for k := 0 to |todo|
        invariant Valid(d) && Slotted(d, paths, |paths|, out', missSlots') && AllPending(|paths|, out', todo)
        invariant forall i | 0 <= i < |paths| :: out'[i] == if Vanished(todo[..k], present, i) then None else out[i]
        invariant forall t | t in todo[..k] && present(t.path) :: (Display(paths[t.slot]), t.path) in confirmed
        invariant Undisturbed(others) ==> realised.Keys <= old(realised).Keys && forall key | key in realised :: realised[key] == old(realised)[key]
        invariant forall key | key in old(realised) && Undisturbed(others) && key !in realised ::
            exists t :: t in todo[..k] && Display(paths[t.slot]) == key && !present(t.path)
        invariant forall t | t in todo[..k] && Undisturbed(others) && !present(t.path) :: Display(paths[t.slot]) !in realised
      {
        assert todo[..k + 1] == todo[..k] + [todo[k]];
        VanishedSnoc(todo[..k], todo[k], present);
        var t := todo[k];
        assert t in todo;
        if present(t.path) {
          confirmed := confirmed + [(Display(paths[t.slot]), t.path)];
        } else {
          out' := out'[t.slot := None];
          missSlots' := missSlots' + [t.slot];
          Lock(d, others(k));
          SoundLess(d, realised, Display(paths[t.slot]));
          realised := realised - {Display(paths[t.slot])};
        }
      }
      assert todo[..|todo|] == todo;
      Lock(d, others(|todo|));
      Mark(d, confirmed);
      var unordered := missSlots';
      assert forall i :: i in unordered ==> i < |paths|;
      missSlots' := ReorderMisses(unordered, |paths|);
      assert forall k | 0 <= k < |missSlots'| :: missSlots'[k] in missSlots';
    }

    /** What the cache has of `paths`, once the hits that were never confirmed have been looked at. */
    method LookUp(ghost d: Daemon, paths: seq<DerivedPath>, present: StorePath -> bool, others: nat -> Option<Cache>)
      returns (out: seq<Option<StorePath>>, missSlots: seq<nat>, looked: nat)
      requires Valid(d) && (forall k :: others(k).Some? ==> Sound(d, others(k).value)) && forall p | p in paths :: Clean(p)
      modifies `realised
      ensures Valid(d) && Slotted(d, paths, |paths|, out, missSlots)
      ensures forall i | 0 <= i < |paths| && Gone(Seen(old(realised), others), present, paths[i]) :: out[i].None?
      ensures Undisturbed(others) ==> forall i | 0 <= i < |paths| && out[i].Some? :: Holds(d, realised, paths[i])
    {
      hide Realisation, Sound, Undisturbed, Gone, Holds, ToConfirm, Vanished, Marked, Moved;
      Lock(d, others(0));
      ghost var seen := realised;
      var todo;
      out, missSlots, todo := Hits(d, realised, paths);
      looked := |todo|;
      if todo != [] {
        ghost var hits := out;
        Shifted(others);
        out, missSlots := Confirm(d, paths, out, missSlots, todo, present, (k: nat) => others(k + 1));
        GoneMisses(seen, paths, todo, present, hits, out);
        if Undisturbed(others) {
          HitsHeld(d, seen, realised, paths, todo, present, out);
        }
      } else {
        NoneGone(d, seen, paths, present, out);
      }
    }

    /** Puts what the daemon made into the cache, marked as there. */
    method Remember(ghost d: Daemon, misses: seq<DerivedPath>, built: seq<StorePath>)
      requires Valid(d) && |built| == |misses| && forall p | p in misses :: Clean(p)
      requires forall k | 0 <= k < |misses| :: Realisation(d, misses[k]) == Ok(built[k])
      modifies `realised
      ensures Valid(d) && forall p | p in misses :: Holds(d, realised, p)
      ensures forall q | Clean(q) && Holds(d, old(realised), q) :: Holds(d, realised, q)
    {
      hide Realisation, Sound, Holds, Clean;
      for k := 0 to |misses|
        invariant Valid(d) && forall p | p in misses[..k] :: Holds(d, realised, p)
        invariant forall q | Clean(q) && Holds(d, old(realised), q) :: Holds(d, realised, q)
      {
        assert misses[..k + 1] == misses[..k] + [misses[k]];
        assert misses[k] in misses && forall p | p in misses[..k] :: p in misses;
        SoundMore(d, realised, misses[k], Entry(built[k], true));
        HoldsMore(d, realised, misses[k], built[k]);
        realised := realised[Display(misses[k]) := Entry(built[k], true)];
      }
      assert misses[..|misses|] == misses;
    }

    /**
     Answers every path. Whatever the cache held and whoever else wrote to it,
     however many paths repeat, and whichever cached paths have gone, the answer
     is that of asking for each path: it succeeds exactly when all of them can
     be had, and slot `i` then holds path `i`. Afterwards what had to be asked for is
     in the cache, marked as there; and so is everything, if no other thread wrote.
     */
    method BuildPaths(ghost d: Daemon, reply: Request -> Reply, paths: seq<DerivedPath>, present: StorePath -> bool,
                      others: nat -> Option<Cache>)
      returns (r: Result<seq<StorePath>, Error>)
      requires Valid(d) && (forall k :: others(k).Some? ==> Sound(d, others(k).value))
      requires (forall p | p in paths :: Clean(p)) && forall q :: Truthful(d, q, reply(q))
      modifies this
      ensures Valid(d) && old(failed) <= failed
      ensures r.Ok? ==> Answered(d, paths, r.value)
      ensures r.Err? ==> exists p :: p in paths && Realisation(d, p).Err?
      ensures r == AskEach(d, paths)
      ensures r.Ok? ==> forall p | p in paths && (Undisturbed(others) || Gone(Seen(old(realised), others), present, p)) ::
                  Holds(d, realised, p)
    {
      hide Realisation, Sound, Truthful, AskEach, Undisturbed, Gone, Holds, ToConfirm, Vanished, Marked, Moved;
      var out, missSlots, looked := LookUp(d, paths, present, others);
      var misses := At(paths, missSlots);
      assert forall k | 0 <= k < |misses| :: misses[k] == paths[missSlots[k]] && misses[k] in paths;
      if misses == [] {
        var all := MergeHitsAndMisses(d, paths, out, missSlots, []);
        AnsweredExactly(d, paths, Ok(all));
        return Ok(all);
      }
      var broken := FailedEarlier(failed, misses);
      if broken {
        KnownBroken(d, failed, misses);
        ghost var p :| p in misses && Realisation(d, p).Err?;
        AnsweredExactly(d, paths, Err(BuildFailed));
        return Err(BuildFailed);
      }
      var built, noted := Realised(d, reply, poolMax, misses);
      failed := failed + noted;
      if built.Err? {
        ghost var p :| p in misses && Realisation(d, p).Err?;
        AnsweredExactly(d, paths, Err(BuildFailed));
        return Err(built.error);
      }
      NotDisturbed(others, looked + 2);
      Lock(d, others(looked + 2));
      assert forall k | 0 <= k < |misses| :: Realisation(d, misses[k]) == Ok(built.value[k]);
      Remember(d, misses, built.value);
      HeldEach(d, realised, paths, misses, missSlots);
      var all := MergeHitsAndMisses(d, paths, out, missSlots, built.value);
      AnsweredExactly(d, paths, Ok(all));
      r := Ok(all);
    }
  }

  lemma KnownBroken(d: Daemon, failed: set<Drv>, misses: seq<DerivedPath>)
    requires forall drv | drv in failed :: d.broken(DrvKey(drv))
    requires exists p :: p in misses && p.Built? && p.drv in failed
    ensures exists p :: p in misses && Realisation(d, p).Err?
  {
    var p :| p in misses && p.Built? && p.drv in failed;
    assert Realisation(d, p).Err?;
  }

  /** The answer can be had exactly when every path can. */
  lemma AnsweredExactly(d: Daemon, paths: seq<DerivedPath>, r: Result<seq<StorePath>, Error>)
    requires r.Ok? ==> Answered(d, paths, r.value)
    requires r.Err? ==> exists p :: p in paths && Realisation(d, p).Err?
    ensures r.Ok? <==> forall p | p in paths :: Realisation(d, p).Ok?
    ensures r.Ok? <==> AskEach(d, paths).Ok?
    ensures r.Ok? || r == Err(BuildFailed) ==> r == AskEach(d, paths)
  {
    AskEachAnswers(d, paths, |paths|);
    GroupAnswered(d, paths);
    if r.Ok? {
      assert forall i | 0 <= i < |paths| :: paths[i] in paths;
      assert AskEach(d, paths).value == r.value;
    }
  }
}
