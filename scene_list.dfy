/**
  The new scene lists that the editor's handlers compute: append with
  defaults, map-merge by id, filter by id, splice-move, and the running
  total of durations.
*/
module SceneList {
  import opened PageTypes

  /** The id under which the first (and, after a reset, only) scene lives. */
  const FirstSceneId := "1"

  /** A scene as `addScene` creates it. */
  function NewScene(id: string): Scene {
    Scene(id, "", 5, Fade, None, None)
  }

  /** The single scene the editor starts with and a new project resets to. */
  function InitialScenes(): (r: seq<Scene>)
    ensures |r| == 1 && r[0].id == FirstSceneId
    ensures r == AppendScene([], FirstSceneId)
  {
    [NewScene(FirstSceneId)]
  }

  function Ids(s: seq<Scene>): set<string> {
    set sc | sc in s :: sc.id
  }

  /** No two positions of the list carry the same id. */
  predicate UniqueIds(s: seq<Scene>) {
    forall i, j :: 0 <= i < |s| && 0 <= j < |s| && i != j ==> s[i].id != s[j].id
  }

  /** `[...scenes, newScene]` followed by selecting the new id. */
  function AppendScene(s: seq<Scene>, id: string): (r: seq<Scene>)
    ensures |r| == |s| + 1 && r[..|s|] == s
    ensures r[|s|] == Scene(id, "", 5, Fade, None, None)
    ensures UniqueIds(s) && id !in Ids(s) ==> UniqueIds(r)
  {
    var r := s + [NewScene(id)];
    assert forall i :: 0 <= i < |s| ==> r[i] in s;
    r
  }

  /** `scenes.map(scene => scene.id === id ? { ...scene, ...updates } : scene)` */
  function UpdateScenes(s: seq<Scene>, id: string, p: Patch): (r: seq<Scene>)
    ensures |r| == |s|
    ensures forall i :: 0 <= i < |s| ==> r[i].id == s[i].id
    ensures forall i :: 0 <= i < |s| && s[i].id == id ==> r[i] == Merge(s[i], p)
    ensures forall i :: 0 <= i < |s| && s[i].id != id ==> r[i] == s[i]
  {
    seq(|s|, i requires 0 <= i < |s| => if s[i].id == id then Merge(s[i], p) else s[i])
  }

  /** An update addressed to an id that no scene has changes nothing. */
  lemma UpdateUnknownId(s: seq<Scene>, id: string, p: Patch)
    requires id !in Ids(s)
    ensures UpdateScenes(s, id, p) == s
  {
    var r := UpdateScenes(s, id, p);
    forall i | 0 <= i < |s| ensures r[i] == s[i] {
      assert s[i] in s;
    }
  }

  /** Merging keeps the ids, so it keeps them distinct. */
  lemma UpdateKeepsIds(s: seq<Scene>, id: string, p: Patch)
    ensures Ids(UpdateScenes(s, id, p)) == Ids(s)
    ensures UniqueIds(s) ==> UniqueIds(UpdateScenes(s, id, p))
  {
    var r := UpdateScenes(s, id, p);
    forall x | x in Ids(r) ensures x in Ids(s) {
      var i :| 0 <= i < |r| && r[i].id == x;
      assert s[i] in s;
    }
    forall x | x in Ids(s) ensures x in Ids(r) {
      var i :| 0 <= i < |s| && s[i].id == x;
      assert r[i] in r;
    }
  }

  /** With distinct ids, an update of the scene at `k` is a point update. */
  lemma UpdateAt(s: seq<Scene>, k: nat, p: Patch)
    requires UniqueIds(s) && k < |s|
    ensures UpdateScenes(s, s[k].id, p) == s[k := Merge(s[k], p)]
  {
  }

  /** `scenes.filter(scene => scene.id !== id)` */
  function RemoveScenes(s: seq<Scene>, id: string): (r: seq<Scene>)
    ensures |r| <= |s|
    ensures forall sc :: sc in r <==> sc in s && sc.id != id
  {
    if s == [] then []
    else if s[0].id != id then [s[0]] + RemoveScenes(s[1..], id)
    else RemoveScenes(s[1..], id)
  }

  /** Filtering an id that no scene carries returns the list unchanged. */
  lemma {:induction false} RemoveUnknownId(s: seq<Scene>, id: string)
    requires id !in Ids(s)
    ensures RemoveScenes(s, id) == s
  {
    if s != [] {
      assert s[0] in s;
      assert Ids(s[1..]) <= Ids(s) by {
        forall x | x in Ids(s[1..]) ensures x in Ids(s) {
          var sc :| sc in s[1..] && sc.id == x;
          assert sc in s;
        }
      }
      RemoveUnknownId(s[1..], id);
    }
  }

  /**
    When no other position carries the id found at position `k` (as with
    distinct ids), deleting that id removes exactly that position and
    keeps the others in their order.
  */
  lemma {:induction false} RemoveAt(s: seq<Scene>, k: nat)
    requires k < |s|
    requires forall j :: 0 <= j < |s| && j != k ==> s[j].id != s[k].id
    ensures RemoveScenes(s, s[k].id) == s[..k] + s[k + 1..]
  {
    var t := s[1..];
    if k == 0 {
      RemoveHead(s);
    } else {
      forall j | 0 <= j < |t| && j != k - 1 ensures t[j].id != t[k - 1].id {
        assert t[j] == s[j + 1] && t[k - 1] == s[k];
      }
      RemoveAt(t, k - 1);
      RemoveStep(s, k);
    }
  }

  /** A head whose id no later scene carries is the only scene the delete removes. */
  lemma RemoveHead(s: seq<Scene>)
    requires |s| >= 1
    requires forall j :: 1 <= j < |s| ==> s[j].id != s[0].id
    ensures RemoveScenes(s, s[0].id) == s[1..]
  {
    var t := s[1..];
    forall sc | sc in t ensures sc.id != s[0].id {
      var j :| 0 <= j < |t| && t[j] == sc;
      assert s[j + 1] == sc;
    }
    RemoveUnknownId(t, s[0].id);
  }

  /** A head with another id is kept in front of what the delete leaves of the tail. */
  lemma RemoveStep(s: seq<Scene>, k: nat)
    requires 0 < k < |s| && s[0].id != s[k].id
    requires RemoveScenes(s[1..], s[k].id) == s[1..][..k - 1] + s[1..][k..]
    ensures RemoveScenes(s, s[k].id) == s[..k] + s[k + 1..]
  {
    assert RemoveScenes(s, s[k].id) == [s[0]] + RemoveScenes(s[1..], s[k].id);
    ConsWithout(s, k);
  }

  /** Deleting position `k > 0` from `s` is deleting `k - 1` from its tail and putting the head back. */
  lemma ConsWithout<T>(s: seq<T>, k: nat)
    requires 0 < k < |s|
    ensures [s[0]] + (s[1..][..k - 1] + s[1..][k..]) == s[..k] + s[k + 1..]
  {
    assert s[1..][..k - 1] == s[1..k] && s[1..][k..] == s[k + 1..];
    assert s[..k] == [s[0]] + s[1..k];
  }

  /** Dropping one position keeps the remaining ids distinct. */
  lemma RemoveAtKeepsUnique(s: seq<Scene>, k: nat)
    requires UniqueIds(s) && k < |s|
    ensures UniqueIds(s[..k] + s[k + 1..])
  {
    var r := s[..k] + s[k + 1..];
    forall i, j | 0 <= i < |r| && 0 <= j < |r| && i != j ensures r[i].id != r[j].id {
      var i' := if i < k then i else i + 1;
      var j' := if j < k then j else j + 1;
      assert r[i] == s[i'] && r[j] == s[j'];
    }
  }

  /**
    Deleting from a list of at least two scenes with distinct ids leaves
    at least one scene, and the ids stay distinct.
  */
  lemma RemoveLeavesOne(s: seq<Scene>, id: string)
    requires UniqueIds(s) && |s| >= 2
    ensures |RemoveScenes(s, id)| >= |s| - 1 >= 1
    ensures UniqueIds(RemoveScenes(s, id))
  {
    if id in Ids(s) {
      var sc :| sc in s && sc.id == id;
      var k :| 0 <= k < |s| && s[k] == sc;
      RemoveAt(s, k);
      RemoveAtKeepsUnique(s, k);
    } else {
      RemoveUnknownId(s, id);
    }
  }

  /** The list with position `k` taken out. */
  function Without<T>(s: seq<T>, k: nat): (r: seq<T>)
    requires k < |s|
    ensures |r| == |s| - 1
    ensures forall i :: 0 <= i < k ==> r[i] == s[i]
    ensures forall i :: k <= i < |r| ==> r[i] == s[i + 1]
  {
    s[..k] + s[k + 1..]
  }

  /**
    `moveScene(from, to)`: `splice(from, 1)` takes the element out, then
    `splice(to, 0, removed)` puts it back in at `to`.
  */
  function Moved<T>(s: seq<T>, from: nat, to: nat): (r: seq<T>)
    requires from < |s| && to < |s|
    ensures |r| == |s|
    ensures r[to] == s[from]
    ensures Without(r, to) == Without(s, from)
  {
    var rest := Without(s, from);
    var r := rest[..to] + [s[from]] + rest[to..];
    assert Without(r, to) == rest;
    r
  }

  /** Moving an element is a permutation of the list. */
  lemma MovedIsPermutation<T>(s: seq<T>, from: nat, to: nat)
    requires from < |s| && to < |s|
    ensures multiset(Moved(s, from, to)) == multiset(s)
  {
    var r := Moved(s, from, to);
    var rest := Without(s, from);
    assert s == s[..from] + [s[from]] + s[from + 1..];
    assert r == rest[..to] + [s[from]] + rest[to..];
    assert rest == rest[..to] + rest[to..];
    calc {
      multiset(r);
      multiset(rest[..to]) + multiset{s[from]} + multiset(rest[to..]);
      multiset(rest) + multiset{s[from]};
      multiset(s[..from]) + multiset(s[from + 1..]) + multiset{s[from]};
      multiset(s);
    }
  }

  /** Moving to the same place leaves the list as it was. */
  lemma MovedSame<T>(s: seq<T>, k: nat)
    requires k < |s|
    ensures Moved(s, k, k) == s
  {
    var r := Moved(s, k, k);
    forall i | 0 <= i < |s| ensures r[i] == s[i] {
      if i < k {
        assert r[i] == Without(r, k)[i];
      } else if i > k {
        assert r[i] == Without(r, k)[i - 1];
      }
    }
  }

  /** The durations added up from the first scene on: the plain sum. */
  function SumOfDurations(s: seq<Scene>): int {
    if s == [] then 0 else s[0].duration + SumOfDurations(s[1..])
  }

  /** The plain sum can also be split off at the last scene. */
  lemma {:induction false} SumOfDurationsSnoc(s: seq<Scene>)
    requires s != []
    ensures SumOfDurations(s) == SumOfDurations(s[..|s| - 1]) + s[|s| - 1].duration
  {
    if |s| == 1 {
      assert s[1..] == [] && s[..0] == [];
    } else {
      SumOfDurationsSnoc(s[1..]);
      assert s[1..][..|s| - 2] == s[..|s| - 1][1..];
    }
  }

  /**
    `scenes.reduce((acc, scene) => acc + scene.duration, 0)`: adding the
    durations left to right gives their plain sum.
  */
  function TotalDuration(s: seq<Scene>): (r: int)
    ensures r == SumOfDurations(s)
  {
    if s == [] then 0
    else
      SumOfDurationsSnoc(s);
      TotalDuration(s[..|s| - 1]) + s[|s| - 1].duration
  }

  /** The total of a concatenation is the sum of the totals. */
  lemma {:induction false} TotalDurationConcat(a: seq<Scene>, b: seq<Scene>)
    ensures TotalDuration(a + b) == TotalDuration(a) + TotalDuration(b)
  {
    if b != [] {
      assert (a + b)[..|a + b| - 1] == a + b[..|b| - 1];
      TotalDurationConcat(a, b[..|b| - 1]);
    } else {
      assert a + b == a;
    }
  }

  /** Inserting a scene at any position adds its duration to the total. */
  lemma TotalDurationInsert(a: seq<Scene>, k: nat, x: Scene)
    requires k <= |a|
    ensures TotalDuration(a[..k] + [x] + a[k..]) == TotalDuration(a) + x.duration
  {
    assert a[..k] + [x] + a[k..] == a[..k] + ([x] + a[k..]);
    TotalDurationConcat(a[..k], [x] + a[k..]);
    TotalDurationConcat([x], a[k..]);
    TotalDurationConcat(a[..k], a[k..]);
    assert a[..k] + a[k..] == a;
    assert [x][..0] == [];
  }

  /** Putting the taken-out element back where it was restores the list. */
  lemma WithoutThenInsert<T>(s: seq<T>, k: nat)
    requires k < |s|
    ensures Without(s, k)[..k] + [s[k]] + Without(s, k)[k..] == s
  {
    assert Without(s, k)[..k] == s[..k];
    assert Without(s, k)[k..] == s[k + 1..];
  }

  /** A move is a take-out followed by an insertion. */
  lemma MovedIsInsert<T>(s: seq<T>, from: nat, to: nat)
    requires from < |s| && to < |s|
    ensures Moved(s, from, to) == Without(s, from)[..to] + [s[from]] + Without(s, from)[to..]
  {
  }

  /** Moving a scene does not change the total duration. */
  lemma MovedKeepsTotal(s: seq<Scene>, from: nat, to: nat)
    requires from < |s| && to < |s|
    ensures TotalDuration(Moved(s, from, to)) == TotalDuration(s)
  {
    MovedIsInsert(s, from, to);
    TotalDurationInsert(Without(s, from), to, s[from]);
    WithoutThenInsert(s, from);
    TotalDurationInsert(Without(s, from), from, s[from]);
  }

  /** Moving keeps the ids, so it keeps them distinct. */
  lemma MovedKeepsUnique(s: seq<Scene>, from: nat, to: nat)
    requires UniqueIds(s) && from < |s| && to < |s|
    ensures UniqueIds(Moved(s, from, to))
  {
    var r := Moved(s, from, to);
    forall i, j | 0 <= i < |r| && 0 <= j < |r| && i != j ensures r[i].id != r[j].id {
      MovedFrom(s, from, to, i);
      MovedFrom(s, from, to, j);
      MoveSourceInjective(from, to, i, j);
    }
  }

  /** Distinct positions of the moved list come from distinct positions. */
  lemma MoveSourceInjective(from: nat, to: nat, i: nat, j: nat)
    requires i != j
    ensures MoveSource(from, to, i) != MoveSource(from, to, j)
  {
  }

  /** The position of `s` that position `i` of the moved list comes from. */
  function MoveSource(from: nat, to: nat, i: nat): nat {
    if i == to then from
    else
      var w := if i < to then i else i - 1;
      if w < from then w else w + 1
  }

  /** Each position of the moved list holds the element at its source position. */
  lemma MovedFrom<T>(s: seq<T>, from: nat, to: nat, i: nat)
    requires from < |s| && to < |s| && i < |s|
    ensures MoveSource(from, to, i) < |s|
    ensures Moved(s, from, to)[i] == s[MoveSource(from, to, i)]
  {
    var r := Moved(s, from, to);
    if i != to {
      var w := if i < to then i else i - 1;
      assert r[i] == Without(r, to)[w];
    }
  }
}
