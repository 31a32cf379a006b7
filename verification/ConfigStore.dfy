/** The code of src/config.c over the tree: the walk to a key's parent, which may create
    objects on its way, and the pruning loop, proved to compute what module ConfigTrees
    defines from the root downwards. */
module ConfigStores {
  import opened Machine
  import opened ConfigTrees
  import opened ConfigKeys

  // -------- the tree at a path --------

  ghost predicate IsObject(node: Option<Node>) {
    node.Some? && node.value.Object?
  }

  /** Every step of the path leads to an object. */
  ghost predicate ObjectsAlong(ms: seq<Member>, path: seq<string>)
    decreases |path|
  {
    path == [] || (IsObject(Find(ms, path[0])) && ObjectsAlong(Find(ms, path[0]).value.members, path[1..]))
  }

  function PutAt(ms: seq<Member>, path: seq<string>, node: Node): seq<Member>
    requires path != []
    decreases |path|
  {
    if |path| == 1 then Put(ms, path[0], node)
    else
      match Find(ms, path[0])
      case Some(Object(inner)) => Put(ms, path[0], Object(PutAt(inner, path[1..], node)))
      case _ => ms
  }

  function RemoveAt(ms: seq<Member>, path: seq<string>): seq<Member>
    requires path != []
    decreases |path|
  {
    if |path| == 1 then Remove(ms, path[0])
    else
      match Find(ms, path[0])
      case Some(Object(inner)) => Put(ms, path[0], Object(RemoveAt(inner, path[1..])))
      case _ => ms
  }

  /** One step of the creating walk: the object at the end of the path. */
  function OpenAt(ms: seq<Member>, path: seq<string>): seq<Member>
    requires path != []
    decreases |path|
  {
    if |path| == 1 then Open(ms, path[0])
    else
      match Find(ms, path[0])
      case Some(Object(inner)) => Put(ms, path[0], Object(OpenAt(inner, path[1..])))
      case _ => ms
  }

  // -------- the creating walk --------

  /** The whole walk, from the root downwards. */
  function OpenAll(ms: seq<Member>, path: seq<string>): (seq<Member>, bool)
    requires path != []
    decreases |path|
  {
    if path[0] == "" then (ms, false)
    else if |path| == 1 then (ms, true)
    else
      var (inner, ok) := OpenAll(OpenedChild(ms, path[0]), path[1..]);
      (Put(Open(ms, path[0]), path[0], Object(inner)), ok)
  }

  lemma PutTwice(ms: seq<Member>, name: string, first: Node, second: Node)
    ensures Put(Put(ms, name, first), name, second) == Put(ms, name, second)
  {
    FindInPut(ms, name, first, "");
    assert IndexOf(Put(ms, name, first), name) == IndexOf(ms, name);
  }

  lemma {:induction false} OpenAtKeepsUnique(ms: seq<Member>, path: seq<string>)
    requires path != [] && Unique(Object(ms))
    ensures Unique(Object(OpenAt(ms, path)))
    decreases |path|
  {
    if |path| == 1 {
      OpenIsUnique(ms, path[0]);
    } else if IsObject(Find(ms, path[0])) {
      UniqueChild(ms, path[0]);
      OpenAtKeepsUnique(Find(ms, path[0]).value.members, path[1..]);
      PutIsUnique(ms, path[0], Object(OpenAt(Find(ms, path[0]).value.members, path[1..])));
    }
  }

  lemma PutIsUnique(ms: seq<Member>, name: string, node: Node)
    requires Unique(Object(ms)) && Unique(node)
    ensures Unique(Object(Put(ms, name, node)))
  {
  }

  lemma RemoveIsUnique(ms: seq<Member>, name: string)
    requires Unique(Object(ms))
    ensures Unique(Object(Remove(ms, name)))
  {
    FindInRemove(ms, name, name);
    var after, at := Remove(ms, name), IndexOf(ms, name);
    forall i | 0 <= i < |after|
      ensures Unique(after[i].node)
    {
      RemovedMembers(ms, name, i);
    }
  }

  lemma OpenIsUnique(ms: seq<Member>, name: string)
    requires Unique(Object(ms))
    ensures Unique(Object(Open(ms, name)))
  {
    var base := if Find(ms, name).Some? then Remove(ms, name) else ms;
    RemoveIsUnique(ms, name);
    FindInRemove(ms, name, name);
    PutBack(base, name, Object([]));
    PutIsUnique(base, name, Object([]));
  }

  lemma OpenIsStable(ms: seq<Member>, name: string)
    requires Unique(Object(ms))
    ensures Open(Open(ms, name), name) == Open(ms, name)
    ensures OpenedChild(Open(ms, name), name) == OpenedChild(ms, name)
  {
    FindInOpen(ms, name, name);
  }

  lemma WalksBelow(ms: seq<Member>, path: seq<string>, inner: seq<Member>)
    requires |path| > 1 && path[0] != "" && Find(ms, path[0]) == Some(Object(inner))
    ensures OpenAll(ms, path) == (Put(ms, path[0], Object(OpenAll(inner, path[1..]).0)), OpenAll(inner, path[1..]).1)
  {
  }

  /** A walk that ends the same below the first object ends the same above it. */
  lemma OpenAllThroughChild(ms: seq<Member>, path: seq<string>, inner: seq<Member>, deeper: seq<Member>)
    requires |path| > 1 && path[0] != "" && Find(ms, path[0]) == Some(Object(inner))
    requires OpenAll(deeper, path[1..]) == OpenAll(inner, path[1..])
    ensures OpenAll(Put(ms, path[0], Object(deeper)), path) == OpenAll(ms, path)
  {
    FindInPut(ms, path[0], Object(deeper), path[0]);
    WalksBelow(ms, path, inner);
    WalksBelow(Put(ms, path[0], Object(deeper)), path, deeper);
    PutTwice(ms, path[0], Object(deeper), Object(OpenAll(inner, path[1..]).0));
  }

  lemma OpenAllAfterFirst(ms: seq<Member>, path: seq<string>)
    requires |path| > 1 && path[0] != "" && Unique(Object(ms))
    ensures OpenAll(Open(ms, path[0]), path) == OpenAll(ms, path)
    ensures IsObject(Find(Open(ms, path[0]), path[0]))
  {
    OpenIsStable(ms, path[0]);
    FindInOpen(ms, path[0], path[0]);
  }

  /** The same one level up, for a `front` of the path that goes below the first object. */
  lemma OpenAllAfterInner(ms: seq<Member>, path: seq<string>, front: seq<string>, inner: seq<Member>)
    requires |front| > 1 && |path| > 1 && front[0] == path[0] != "" && Find(ms, path[0]) == Some(Object(inner))
    requires var deeper := OpenAt(inner, front[1..]);
             OpenAll(deeper, path[1..]) == OpenAll(inner, path[1..]) && ObjectsAlong(deeper, front[1..])
    ensures OpenAll(OpenAt(ms, front), path) == OpenAll(ms, path)
    ensures ObjectsAlong(OpenAt(ms, front), front)
  {
    var deeper := OpenAt(inner, front[1..]);
    assert OpenAt(ms, front) == Put(ms, path[0], Object(deeper));
    OpenAllThroughChild(ms, path, inner, deeper);
    FindInPut(ms, path[0], Object(deeper), path[0]);
  }

  /** Opening the next segment does not change where the whole walk ends. */
  lemma {:induction false} OpenAllAfterStep(ms: seq<Member>, path: seq<string>, k: nat)
    requires k + 1 < |path| && Unique(Object(ms)) && ObjectsAlong(ms, path[..k])
    requires forall i | 0 <= i <= k :: path[i] != ""
    ensures OpenAll(OpenAt(ms, path[..k + 1]), path) == OpenAll(ms, path)
    ensures ObjectsAlong(OpenAt(ms, path[..k + 1]), path[..k + 1])
    decreases k
  {
    if k == 0 {
      assert path[..1] == [path[0]];
      OpenAllAfterFirst(ms, path);
    } else {
      var inner := Find(ms, path[0]).value.members;
      assert path[..k + 1][1..] == path[1..][..k] && path[..k][1..] == path[1..][..k - 1];
      UniqueChild(ms, path[0]);
      OpenAllAfterStep(inner, path[1..], k - 1);
      OpenAllAfterInner(ms, path, path[..k + 1], inner);
    }
  }

  /** Where every object is there already the walk changes nothing, up to the leaf or to the
      first empty segment. */
  lemma {:induction false} OpenAllStops(ms: seq<Member>, path: seq<string>, k: nat)
    requires k < |path| && ObjectsAlong(ms, path[..k])
    requires forall i | 0 <= i < k :: path[i] != ""
    requires path[k] == "" || k + 1 == |path|
    ensures OpenAll(ms, path) == (ms, path[k] != "")
    decreases k
  {
    if k > 0 {
      assert path[..k][1..] == path[1..][..k - 1];
      OpenAllStops(Find(ms, path[0]).value.members, path[1..], k - 1);
      PutBack(ms, path[0], Find(ms, path[0]).value);
    }
  }

  /** The walk has come to segment `k` of the path. */
  ghost predicate Reached(ms: seq<Member>, path: seq<string>, k: nat) {
    && k < |path| && Unique(Object(ms)) && ObjectsAlong(ms, path[..k])
    && forall i | 0 <= i < k :: path[i] != ""
  }

  /** It ends at the parent, or at an empty segment. */
  lemma WalkEnds(ms: seq<Member>, path: seq<string>, k: nat)
    requires Reached(ms, path, k) && (path[k] == "" || k == |path| - 1)
    ensures path[k] != "" <==> WellFormedPath(path) && ObjectsAlong(ms, path[..|path| - 1])
  {
    if path[k] != "" {
      assert forall i | 0 <= i < |path| :: path[i] != "";
    }
  }

  /** Setting is the walk and then a write to the parent it found. */
  lemma {:induction false} SetIsWalkThenPut(ms: seq<Member>, path: seq<string>, text: string)
    requires path != [] && Unique(Object(ms))
    ensures var (walked, ok) := OpenAll(ms, path);
            SetAt(ms, path, text) == (if ok then PutAt(walked, path, Text(text)) else walked, ok)
    decreases |path|
  {
    if path[0] != "" && |path| > 1 {
      var inner, name := OpenedChild(ms, path[0]), path[0];
      var (walked, ok) := OpenAll(inner, path[1..]);
      UniqueChild(ms, name);
      SetIsWalkThenPut(inner, path[1..], text);
      FindInPut(Open(ms, name), name, Object(walked), "");
      PutTwice(Open(ms, name), name, Object(walked), Object(PutAt(walked, path[1..], Text(text))));
    }
  }

  // -------- pruning --------

  /** Removes the objects along the path that are empty, from the bottom up. */
  function PruneAlong(ms: seq<Member>, path: seq<string>): seq<Member>
    decreases |path|
  {
    if path == [] then ms
    else
      match Find(ms, path[0])
      case Some(Object(inner)) => Kept(ms, path[0], PruneAlong(inner, path[1..]))
      case _ => ms
  }

  /** The members when those of the object `name` have become `rest`. */
  function Kept(ms: seq<Member>, name: string, rest: seq<Member>): seq<Member> {
    if rest == [] then Remove(ms, name) else Put(ms, name, Object(rest))
  }

  lemma RemoveAfterPut(ms: seq<Member>, name: string, node: Node)
    requires Find(ms, name).Some?
    ensures Remove(Put(ms, name, node), name) == Remove(ms, name)
  {
    FindInPut(ms, name, node, "");
  }

  lemma KeptAfterPut(ms: seq<Member>, name: string, node: Node, rest: seq<Member>)
    requires Find(ms, name).Some?
    ensures Kept(Put(ms, name, node), name, rest) == Kept(ms, name, rest)
  {
    RemoveAfterPut(ms, name, node);
    PutTwice(ms, name, node, Object(rest));
  }

  lemma PrunesBelow(ms: seq<Member>, path: seq<string>, inner: seq<Member>)
    requires path != [] && Find(ms, path[0]) == Some(Object(inner))
    ensures PruneAlong(ms, path) == Kept(ms, path[0], PruneAlong(inner, path[1..]))
  {
  }

  lemma ResetsBelow(ms: seq<Member>, path: seq<string>, inner: seq<Member>)
    requires |path| > 1 && Find(ms, path[0]) == Some(Object(inner))
    ensures ResetAt(ms, path) == Kept(ms, path[0], ResetAt(inner, path[1..]))
    ensures RemoveAt(ms, path) == Put(ms, path[0], Object(RemoveAt(inner, path[1..])))
  {
  }

  /** Resetting is removing the leaf and pruning its parents. */
  lemma {:induction false} ResetIsRemoveThenPrune(ms: seq<Member>, path: seq<string>)
    requires path != []
    requires ObjectsAlong(ms, path[..|path| - 1])
    ensures PruneAlong(RemoveAt(ms, path), path[..|path| - 1]) == ResetAt(ms, path)
    ensures ObjectsAlong(RemoveAt(ms, path), path[..|path| - 1])
    decreases |path|
  {
    if |path| > 1 {
      var name, parents := path[0], path[..|path| - 1];
      var inner := Find(ms, name).value.members;
      var shorter := RemoveAt(inner, path[1..]);
      assert parents[1..] == path[1..][..|path[1..]| - 1];
      ResetIsRemoveThenPrune(inner, path[1..]);
      ResetsBelow(ms, path, inner);
      FindInPut(ms, name, Object(shorter), name);
      PrunesBelow(Put(ms, name, Object(shorter)), parents, shorter);
      KeptAfterPut(ms, name, Object(shorter), ResetAt(inner, path[1..]));
    }
  }

  /** A pruning that ends the same below the first object ends the same above it. */
  lemma PruneThroughChild(ms: seq<Member>, path: seq<string>, above: seq<string>, inner: seq<Member>,
                          shorter: seq<Member>)
    requires path != [] && above != [] && above[0] == path[0] && Find(ms, path[0]) == Some(Object(inner))
    requires PruneAlong(inner, path[1..]) == PruneAlong(shorter, above[1..])
    ensures PruneAlong(ms, path) == PruneAlong(Put(ms, path[0], Object(shorter)), above)
  {
    var after := Put(ms, path[0], Object(shorter));
    FindInPut(ms, path[0], Object(shorter), path[0]);
    PrunesBelow(ms, path, inner);
    PrunesBelow(after, above, shorter);
    KeptAfterPut(ms, path[0], Object(shorter), PruneAlong(inner, path[1..]));
  }

  /** An empty object at the end of the path goes; the pruning continues above it. */
  lemma {:induction false} PruneStep(ms: seq<Member>, path: seq<string>)
    requires path != [] && ObjectsAlong(ms, path) && Lookup(ms, path) == Some(Object([]))
    ensures PruneAlong(ms, path) == PruneAlong(RemoveAt(ms, path), path[..|path| - 1])
    ensures ObjectsAlong(RemoveAt(ms, path), path[..|path| - 1])
    decreases |path|
  {
    var name := path[0];
    if |path| > 1 {
      var inner, above := Find(ms, name).value.members, path[..|path| - 1];
      assert above[1..] == path[1..][..|path[1..]| - 1];
      PruneStep(inner, path[1..]);
      var shorter := RemoveAt(inner, path[1..]);
      assert RemoveAt(ms, path) == Put(ms, name, Object(shorter));
      PruneThroughChild(ms, path, above, inner, shorter);
      FindInPut(ms, name, Object(shorter), "");
    } else {
      assert path[1..] == [] && path[..0] == [];
    }
  }

  /** An object that is not empty stops the pruning. */
  lemma {:induction false} PruneStops(ms: seq<Member>, path: seq<string>)
    requires path != [] && ObjectsAlong(ms, path) && Lookup(ms, path) != Some(Object([]))
    ensures PruneAlong(ms, path) == ms && ms != []
    decreases |path|
  {
    var inner := Find(ms, path[0]).value.members;
    if |path| > 1 {
      PruneStops(inner, path[1..]);
    } else {
      assert path[1..] == [];
    }
    PutBack(ms, path[0], Object(inner));
  }

  lemma {:induction false} ObjectsLookup(ms: seq<Member>, path: seq<string>)
    requires path != []
    ensures ObjectsAlong(ms, path) <==> ObjectsAlong(ms, path[..|path| - 1]) && IsObject(Lookup(ms, path))
    ensures Lookup(ms, path).Some? ==> ObjectsAlong(ms, path[..|path| - 1])
    decreases |path|
  {
    if |path| > 1 && IsObject(Find(ms, path[0])) {
      assert path[..|path| - 1][1..] == path[1..][..|path[1..]| - 1];
      ObjectsLookup(Find(ms, path[0]).value.members, path[1..]);
    }
  }

  // -------- the code --------

  const ENV_PREFIX := "avar."
  const CONFIG_PATH_MAX: nat := 256

  /** get_config_from_env: a name that does not fit the buffer overrides nothing. */
  function Override(key: string, environment: map<string, string>): Option<string> {
    var name := ENV_PREFIX + key;
    if |name| >= CONFIG_PATH_MAX || name !in environment then None else Some(environment[name])
  }

  class Config {
    var root: seq<Member>

    constructor (loaded: seq<Member>)
      ensures root == loaded
    {
      root := loaded;
    }

    /** resolve_parent: whether the key has a parent object; with `create`, missing objects
        are added on the way and scalars replaced. */
    method ResolveParent(path: seq<string>, create: bool) returns (found: bool)
      requires path != [] && Unique(Object(root))
      modifies this
      ensures Unique(Object(root))
      ensures create ==> (root, found) == OpenAll(old(root), path)
      ensures !create ==> root == old(root)
                          && (found <==> WellFormedPath(path) && ObjectsAlong(root, path[..|path| - 1]))
    {
      var k := 0;
      while k + 1 < |path| && path[k] != ""
        invariant Reached(root, path, k)
        invariant create ==> OpenAll(root, path) == OpenAll(old(root), path)
        invariant !create ==> root == old(root)
      {
        var open := Descend(path, k, create);
        if !open {
          return false;
        }
        k := k + 1;
      }
      OpenAllStops(root, path, k);
      WalkEnds(root, path, k);
      found := path[k] != "";
    }

    /** One segment of the walk: whether there is an object to go on in. */
    method Descend(path: seq<string>, k: nat, create: bool) returns (open: bool)
      requires k + 1 < |path| && Reached(root, path, k) && path[k] != ""
      modifies this
      ensures Unique(Object(root))
      ensures open ==> Reached(root, path, k + 1)
      ensures !open ==> !create && !ObjectsAlong(root, path[..|path| - 1])
      ensures create ==> OpenAll(root, path) == OpenAll(old(root), path)
      ensures !create ==> root == old(root)
    {
      var child := Lookup(root, path[..k + 1]);
      assert path[..k + 1][..k] == path[..k];
      ObjectsLookup(root, path[..k + 1]);
      open := child.Some? && child.value.Object?;
      if !open {
        if create {
          OpenAllAfterStep(root, path, k);
          OpenAtKeepsUnique(root, path[..k + 1]);
          root := OpenAt(root, path[..k + 1]);
          open := true;
        } else {
          assert path[..|path| - 1][..k + 1] == path[..k + 1];
          NoObjectsBeyond(root, path[..|path| - 1], k + 1);
        }
      }
    }

    /** prune_empty_parents: empty objects above the key go, from the bottom up. */
    method PruneEmptyParents(path: seq<string>)
      requires path != [] && WellFormedPath(path) && Unique(Object(root))
      requires ObjectsAlong(root, path[..|path| - 1])
      modifies this
      ensures root == PruneAlong(old(root), path[..|path| - 1])
    {
      var k := |path| - 1;
      while k > 0
        invariant 0 <= k < |path|
        invariant ObjectsAlong(root, path[..k])
        invariant PruneAlong(root, path[..k]) == PruneAlong(old(root), path[..|path| - 1])
      {
        var node := Lookup(root, path[..k]);
        ObjectsLookup(root, path[..k]);
        if node != Some(Object([])) {
          PruneStops(root, path[..k]);
          return;
        }
        PruneStep(root, path[..k]);
        assert path[..k][..k - 1] == path[..k - 1];
        root := RemoveAt(root, path[..k]);
        k := k - 1;
      }
    }

    /** get_config: a variable of the environment comes before the tree. */
    method GetConfig(key: string, environment: map<string, string>) returns (value: Option<string>)
      requires Unique(Object(root))
      modifies this
      ensures root == old(root)
      ensures var name := "avar." + key;
              value == if |name| < CONFIG_PATH_MAX && name in environment then Some(environment[name])
                       else Value(root, key)
    {
      WellFormedKeysExactly(key);
      value := Override(key, environment);
      if value.Some? {
        return;
      }
      var path := Split(key);
      ObjectsLookup(root, path);
      var found := ResolveParent(path, false);
      if !found {
        return None;
      }
      value := Rendered(Lookup(root, path));
    }

    /** set_config; `persists` is the answer of the write to disk. */
    method SetConfig(key: string, value: string, persists: bool) returns (ok: bool)
      requires Unique(Object(root))
      modifies this
      ensures root == SetAt(old(root), Split(key), value).0
      ensures WellFormedKey(key) ==> Value(root, key) == Some(value)
      ensures ok <==> WellFormedKey(key) && persists
    {
      var path := Split(key);
      WellFormedKeysExactly(key);
      if WellFormedKey(key) {
        SetChangesExactly(root, key, value, key);
      }
      SetIsWalkThenPut(root, path, value);
      KeysAcceptedExactly(root, path, value);
      var found := ResolveParent(path, true);
      if !found {
        return false;
      }
      root := PutAt(root, path, Text(value));
      ok := persists;
    }

    /** reset_config. */
    method ResetConfig(key: string, persists: bool) returns (ok: bool)
      requires Unique(Object(root))
      modifies this
      ensures var there := WellFormedKey(key) && Lookup(old(root), Split(key)).Some?;
              && root == (if there then ResetAt(old(root), Split(key)) else old(root))
              && (ok <==> there && persists)
    {
      var path := Split(key);
      WellFormedKeysExactly(key);
      ObjectsLookup(root, path);
      var found := ResolveParent(path, false);
      if !found {
        return false;
      }
      if Lookup(root, path).None? {
        return false;
      }
      ResetIsRemoveThenPrune(root, path);
      RemoveAtKeepsUnique(root, path);
      root := RemoveAt(root, path);
      PruneEmptyParents(path);
      ok := persists;
    }
  }

  lemma {:induction false} RemoveAtKeepsUnique(ms: seq<Member>, path: seq<string>)
    requires path != [] && Unique(Object(ms))
    ensures Unique(Object(RemoveAt(ms, path)))
    decreases |path|
  {
    if |path| == 1 {
      RemoveIsUnique(ms, path[0]);
    } else if IsObject(Find(ms, path[0])) {
      UniqueChild(ms, path[0]);
      RemoveAtKeepsUnique(Find(ms, path[0]).value.members, path[1..]);
      PutIsUnique(ms, path[0], Object(RemoveAt(Find(ms, path[0]).value.members, path[1..])));
    }
  }

  /** A path that is broken somewhere is no path of objects. */
  lemma {:induction false} NoObjectsBeyond(ms: seq<Member>, path: seq<string>, k: nat)
    requires k <= |path| && !ObjectsAlong(ms, path[..k])
    ensures !ObjectsAlong(ms, path)
    decreases k
  {
    if IsObject(Find(ms, path[0])) {
      assert path[..k][1..] == path[1..][..k - 1];
      NoObjectsBeyond(Find(ms, path[0]).value.members, path[1..], k - 1);
    }
  }
}
