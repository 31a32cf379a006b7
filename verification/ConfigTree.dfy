/** The configuration tree of src/config.c: a JSON object addressed by dotted keys. */
module ConfigTrees {
  import opened Machine

  /** Texts, other scalars with their rendering if they have one, and objects, whose
      members keep their order. */
  datatype Node = Text(text: string) | Other(rendered: Option<string>) | Object(members: seq<Member>)
  datatype Member = Member(name: string, node: Node)

  // -------- members of one object --------

  function IndexOf(ms: seq<Member>, name: string): (i: nat)
    ensures i <= |ms|
    ensures i < |ms| ==> ms[i].name == name
    ensures forall j | 0 <= j < i :: ms[j].name != name
  {
    if ms == [] || ms[0].name == name then 0 else 1 + IndexOf(ms[1..], name)
  }

  function Find(ms: seq<Member>, name: string): Option<Node> {
    var i := IndexOf(ms, name);
    if i < |ms| then Some(ms[i].node) else None
  }

  /** Replaces the member in its place, or adds it at the end. */
  function Put(ms: seq<Member>, name: string, node: Node): seq<Member> {
    var i := IndexOf(ms, name);
    if i < |ms| then ms[i := Member(name, node)] else ms + [Member(name, node)]
  }

  function Remove(ms: seq<Member>, name: string): seq<Member> {
    var i := IndexOf(ms, name);
    if i < |ms| then ms[..i] + ms[i + 1..] else ms
  }

  lemma IndexIsFirst(ms: seq<Member>, name: string, i: nat)
    requires i <= |ms| && (i < |ms| ==> ms[i].name == name)
    requires forall j | 0 <= j < i :: ms[j].name != name
    ensures IndexOf(ms, name) == i
  {
  }

  lemma FindInPut(ms: seq<Member>, name: string, node: Node, other: string)
    ensures Find(Put(ms, name, node), name) == Some(node)
    ensures other != name ==> Find(Put(ms, name, node), other) == Find(ms, other)
    ensures IndexOf(Put(ms, name, node), name) == IndexOf(ms, name)
  {
    var after := Put(ms, name, node);
    IndexIsFirst(after, name, IndexOf(ms, name));
    if other != name {
      var i := IndexOf(ms, other);
      IndexIsFirst(after, other, if i < |ms| then i else |after|);
    }
  }

  ghost predicate UniqueNames(ms: seq<Member>) {
    forall i, j | 0 <= i < j < |ms| :: ms[i].name != ms[j].name
  }

  lemma RemovedMembers(ms: seq<Member>, name: string, j: nat)
    requires j < |Remove(ms, name)|
    ensures Remove(ms, name)[j] == ms[if j < IndexOf(ms, name) then j else j + 1]
  {
  }

  lemma FindInRemove(ms: seq<Member>, name: string, other: string)
    requires UniqueNames(ms)
    ensures Find(Remove(ms, name), name) == None
    ensures other != name ==> Find(Remove(ms, name), other) == Find(ms, other)
    ensures UniqueNames(Remove(ms, name))
  {
    var after, at := Remove(ms, name), IndexOf(ms, name);
    forall j | 0 <= j < |after|
      ensures after[j] == ms[if j < at then j else j + 1]
    {
      RemovedMembers(ms, name, j);
    }
    IndexIsFirst(after, name, |after|);
    if other != name {
      FindAround(ms, after, at, other);
    }
  }

  /** Taking out the member at `at` moves the others up by at most one place. */
  lemma FindAround(ms: seq<Member>, after: seq<Member>, at: nat, other: string)
    requires UniqueNames(ms) && at <= |ms| && |after| == (if at < |ms| then |ms| - 1 else |ms|)
    requires forall j | 0 <= j < |after| :: after[j] == ms[if j < at then j else j + 1]
    requires at < |ms| ==> ms[at].name != other
    ensures Find(after, other) == Find(ms, other)
  {
    var i := IndexOf(ms, other);
    var k := if i == |ms| then |after| else if i < at then i else i - 1;
    IndexIsFirst(after, other, k);
  }

  /** Putting back what is there, and removing what has just been added, change nothing. */
  lemma PutBack(ms: seq<Member>, name: string, node: Node)
    ensures Find(ms, name) == Some(node) ==> Put(ms, name, node) == ms
    ensures Find(ms, name) == None ==> Remove(ms + [Member(name, node)], name) == ms
    ensures Find(ms, name) == None ==> Put(ms, name, node) == ms + [Member(name, node)]
  {
    if Find(ms, name) == None {
      IndexIsFirst(ms + [Member(name, node)], name, |ms|);
    }
  }

  // -------- trees without duplicate names and without empty objects --------

  ghost predicate Tidy(node: Node)
    decreases node
  {
    node.Object? ==>
      && UniqueNames(node.members)
      && forall i | 0 <= i < |node.members| :: node.members[i].node != Object([]) && Tidy(node.members[i].node)
  }

  /** Names are unique in every object; empty objects are allowed. */
  ghost predicate Unique(node: Node)
    decreases node
  {
    node.Object? ==>
      UniqueNames(node.members) && forall i | 0 <= i < |node.members| :: Unique(node.members[i].node)
  }

  lemma UniqueChild(ms: seq<Member>, name: string)
    requires Unique(Object(ms))
    ensures Unique(Object(OpenedChild(ms, name)))
    ensures UniqueNames(ms)
  {
  }

  /** A root, which may be empty itself. */
  ghost predicate TidyRoot(ms: seq<Member>) {
    Tidy(Object(ms))
  }

  lemma TidyChild(ms: seq<Member>, name: string)
    requires TidyRoot(ms)
    ensures Find(ms, name).Some? ==> Find(ms, name) != Some(Object([])) && Tidy(Find(ms, name).value)
  {
  }

  lemma PutIsTidy(ms: seq<Member>, name: string, node: Node)
    requires TidyRoot(ms) && Tidy(node) && node != Object([])
    ensures TidyRoot(Put(ms, name, node))
  {
  }

  lemma RemoveIsTidy(ms: seq<Member>, name: string)
    requires TidyRoot(ms)
    ensures TidyRoot(Remove(ms, name))
  {
    FindInRemove(ms, name, name);
    var after, at := Remove(ms, name), IndexOf(ms, name);
    forall i | 0 <= i < |after|
      ensures after[i].node != Object([]) && Tidy(after[i].node)
    {
      RemovedMembers(ms, name, i);
    }
  }

  // -------- paths --------

  /** A key cut at its dots. */
  function Split(key: string): (path: seq<string>)
    ensures path != []
  {
    if key == "" then [""]
    else
      var rest := Split(key[1..]);
      if key[0] == '.' then [""] + rest else [[key[0]] + rest[0]] + rest[1..]
  }

  predicate WellFormedPath(path: seq<string>) {
    forall i | 0 <= i < |path| :: path[i] != ""
  }

  function Lookup(ms: seq<Member>, path: seq<string>): Option<Node>
    requires path != []
    decreases |path|
  {
    var child := Find(ms, path[0]);
    if |path| == 1 || child.None? then child
    else if child.value.Object? then Lookup(child.value.members, path[1..])
    else None
  }

  // -------- what the operations do, from the root downwards --------

  /** The child object on the way to a key, and the members with it: what is there and is
      no object is deleted, what is missing is added at the end. */
  function Open(ms: seq<Member>, name: string): seq<Member> {
    match Find(ms, name)
    case Some(Object(_)) => ms
    case Some(_) => Remove(ms, name) + [Member(name, Object([]))]
    case None => ms + [Member(name, Object([]))]
  }

  function OpenedChild(ms: seq<Member>, name: string): seq<Member> {
    match Find(ms, name)
    case Some(Object(inner)) => inner
    case _ => []
  }

  /** set_config on the tree: the new members, and whether the key was accepted. The way is
      opened segment by segment, so an empty segment is met only after those before it. */
  function SetAt(ms: seq<Member>, path: seq<string>, text: string): (seq<Member>, bool)
    requires path != []
    decreases |path|
  {
    if path[0] == "" then (ms, false)
    else if |path| == 1 then (Put(ms, path[0], Text(text)), true)
    else
      var (inner, ok) := SetAt(OpenedChild(ms, path[0]), path[1..], text);
      (Put(Open(ms, path[0]), path[0], Object(inner)), ok)
  }

  /** reset_config on the tree, for a key that is there: the member goes, and so does every
      object on the way that this leaves empty. */
  function ResetAt(ms: seq<Member>, path: seq<string>): seq<Member>
    requires path != []
    decreases |path|
  {
    if |path| == 1 then Remove(ms, path[0])
    else
      match Find(ms, path[0])
      case Some(Object(inner)) =>
        var rest := ResetAt(inner, path[1..]);
        if rest == [] then Remove(ms, path[0]) else Put(ms, path[0], Object(rest))
      case _ => ms
  }

  // -------- their properties --------

  lemma {:induction false} KeysAcceptedExactly(ms: seq<Member>, path: seq<string>, text: string)
    requires path != []
    ensures SetAt(ms, path, text).1 <==> WellFormedPath(path)
    decreases |path|
  {
    if path[0] != "" && |path| > 1 {
      KeysAcceptedExactly(OpenedChild(ms, path[0]), path[1..], text);
      assert WellFormedPath(path) <==> WellFormedPath(path[1..]) by {
        assert forall i | 0 < i < |path| :: path[i] == path[1..][i - 1];
      }
    }
  }

  lemma FindInAppended(ms: seq<Member>, name: string, node: Node, other: string)
    requires Find(ms, name) == None
    ensures Find(ms + [Member(name, node)], name) == Some(node)
    ensures other != name ==> Find(ms + [Member(name, node)], other) == Find(ms, other)
  {
    PutBack(ms, name, node);
    FindInPut(ms, name, node, other);
  }

  lemma FindInOpen(ms: seq<Member>, name: string, other: string)
    requires UniqueNames(ms)
    ensures Find(Open(ms, name), name) == Some(Object(OpenedChild(ms, name)))
    ensures other != name ==> Find(Open(ms, name), other) == Find(ms, other)
  {
    FindInRemove(ms, name, other);
    if Find(ms, name) == None {
      FindInAppended(ms, name, Object([]), other);
    } else if !Find(ms, name).value.Object? {
      FindInAppended(Remove(ms, name), name, Object([]), other);
    }
  }

  /** What has been set is found. */
  lemma {:induction false} SetThenLookup(ms: seq<Member>, path: seq<string>, text: string)
    requires path != [] && WellFormedPath(path)
    ensures Lookup(SetAt(ms, path, text).0, path) == Some(Text(text))
    decreases |path|
  {
    FindInPut(ms, path[0], Text(text), "");
    if |path| > 1 {
      SetThenLookup(OpenedChild(ms, path[0]), path[1..], text);
      FindInPut(Open(ms, path[0]), path[0], Object(SetAt(OpenedChild(ms, path[0]), path[1..], text).0), "");
    }
  }

  /** Neither path leads through the other. */
  ghost predicate Unrelated(p: seq<string>, q: seq<string>) {
    !(p <= q) && !(q <= p)
  }

  lemma UnrelatedTails(p: seq<string>, q: seq<string>)
    requires p != [] && q != [] && Unrelated(p, q) && p[0] == q[0]
    ensures |p| > 1 && |q| > 1 && Unrelated(p[1..], q[1..])
  {
    assert p == [p[0]] + p[1..] && q == [q[0]] + q[1..];
  }

  lemma {:induction false} NothingInside(path: seq<string>)
    requires path != []
    ensures Lookup([], path) == None
  {
  }

  /** Every key that is not prefix-related to it keeps its value. */
  lemma {:induction false} SetLeavesOthers(ms: seq<Member>, path: seq<string>, text: string, q: seq<string>)
    requires path != [] && q != [] && WellFormedPath(path) && Unique(Object(ms)) && Unrelated(path, q)
    ensures Lookup(SetAt(ms, path, text).0, q) == Lookup(ms, q)
    decreases |path|
  {
    if path[0] != q[0] {
      SetKeepsOtherMembers(ms, path, text, q[0]);
    } else {
      UnrelatedTails(path, q);
      UniqueChild(ms, path[0]);
      LookupBelow(ms, q);
      SetBelow(ms, path, text);
      SetLeavesOthers(OpenedChild(ms, path[0]), path[1..], text, q[1..]);
    }
  }

  lemma LookupBelow(ms: seq<Member>, q: seq<string>)
    requires |q| > 1
    ensures Lookup(ms, q) == Lookup(OpenedChild(ms, q[0]), q[1..])
  {
    NothingInside(q[1..]);
  }

  lemma SetBelow(ms: seq<Member>, path: seq<string>, text: string)
    requires |path| > 1 && path[0] != ""
    ensures Find(SetAt(ms, path, text).0, path[0]) == Some(Object(SetAt(OpenedChild(ms, path[0]), path[1..], text).0))
  {
    FindInPut(Open(ms, path[0]), path[0], Object(SetAt(OpenedChild(ms, path[0]), path[1..], text).0), "");
  }

  lemma SetKeepsOtherMembers(ms: seq<Member>, path: seq<string>, text: string, other: string)
    requires path != [] && UniqueNames(ms) && other != path[0]
    ensures Find(SetAt(ms, path, text).0, other) == Find(ms, other)
  {
    FindInPut(ms, path[0], Text(text), other);
    if path[0] != "" && |path| > 1 {
      FindInOpen(ms, path[0], other);
      FindInPut(Open(ms, path[0]), path[0], Object(SetAt(OpenedChild(ms, path[0]), path[1..], text).0), other);
    }
  }

  lemma {:induction false} SetIsNotEmpty(ms: seq<Member>, path: seq<string>, text: string)
    requires path != [] && WellFormedPath(path)
    ensures SetAt(ms, path, text).0 != []
    decreases |path|
  {
  }

  /** A child that is no object is opened at the end, behind the members without it. */
  lemma OpenedAtTheEnd(ms: seq<Member>, name: string, node: Node)
    requires UniqueNames(ms) && (Find(ms, name).Some? ==> !Find(ms, name).value.Object?)
    ensures Find(Remove(ms, name), name) == None
    ensures Put(Open(ms, name), name, node) == Remove(ms, name) + [Member(name, node)]
  {
    var base := Remove(ms, name);
    FindInRemove(ms, name, name);
    IndexIsFirst(base + [Member(name, Object([]))], name, |base|);
    assert Open(ms, name) == base + [Member(name, Object([]))];
  }

  lemma OpenThenPut(ms: seq<Member>, name: string, node: Node)
    requires TidyRoot(ms) && Tidy(node) && node != Object([])
    ensures TidyRoot(Put(Open(ms, name), name, node))
  {
    if Find(ms, name).Some? && Find(ms, name).value.Object? {
      PutIsTidy(ms, name, node);
    } else {
      OpenedAtTheEnd(ms, name, node);
      RemoveIsTidy(ms, name);
      PutBack(Remove(ms, name), name, node);
      PutIsTidy(Remove(ms, name), name, node);
    }
  }

  /** Both operations keep the tree free of empty objects and of duplicate names. */
  lemma {:induction false} SetKeepsTidy(ms: seq<Member>, path: seq<string>, text: string)
    requires path != [] && WellFormedPath(path) && TidyRoot(ms)
    ensures TidyRoot(SetAt(ms, path, text).0)
    decreases |path|
  {
    if |path| == 1 {
      PutIsTidy(ms, path[0], Text(text));
    } else {
      var inner := SetAt(OpenedChild(ms, path[0]), path[1..], text).0;
      TidyChild(ms, path[0]);
      SetKeepsTidy(OpenedChild(ms, path[0]), path[1..], text);
      SetIsNotEmpty(OpenedChild(ms, path[0]), path[1..], text);
      OpenThenPut(ms, path[0], Object(inner));
    }
  }

  lemma {:induction false} ResetKeepsTidy(ms: seq<Member>, path: seq<string>)
    requires path != [] && TidyRoot(ms)
    ensures TidyRoot(ResetAt(ms, path))
    decreases |path|
  {
    RemoveIsTidy(ms, path[0]);
    if |path| > 1 && Find(ms, path[0]).Some? && Find(ms, path[0]).value.Object? {
      var inner := Find(ms, path[0]).value.members;
      TidyChild(ms, path[0]);
      ResetKeepsTidy(inner, path[1..]);
      if ResetAt(inner, path[1..]) != [] {
        PutIsTidy(ms, path[0], Object(ResetAt(inner, path[1..])));
      }
    }
  }

  /** After a reset the key is gone... */
  lemma {:induction false} ResetRemovesTheKey(ms: seq<Member>, path: seq<string>)
    requires path != [] && Unique(Object(ms))
    ensures Lookup(ResetAt(ms, path), path) == None
    decreases |path|
  {
    FindInRemove(ms, path[0], path[0]);
    if |path| > 1 && Find(ms, path[0]).Some? && Find(ms, path[0]).value.Object? {
      var inner := Find(ms, path[0]).value.members;
      UniqueChild(ms, path[0]);
      ResetRemovesTheKey(inner, path[1..]);
      FindInPut(ms, path[0], Object(ResetAt(inner, path[1..])), "");
    }
  }

  /** ... and unrelated keys keep their values. */
  lemma {:induction false} ResetLeavesOthers(ms: seq<Member>, path: seq<string>, q: seq<string>)
    requires path != [] && q != [] && Unique(Object(ms)) && Unrelated(path, q)
    ensures Lookup(ResetAt(ms, path), q) == Lookup(ms, q)
    decreases |path|
  {
    if path[0] != q[0] {
      ResetKeepsOtherMembers(ms, path, q[0]);
    } else {
      UnrelatedTails(path, q);
      if Find(ms, path[0]).Some? && Find(ms, path[0]).value.Object? {
        var inner := Find(ms, path[0]).value.members;
        UniqueChild(ms, path[0]);
        ResetLeavesOthers(inner, path[1..], q[1..]);
        FindInRemove(ms, path[0], "");
        FindInPut(ms, path[0], Object(ResetAt(inner, path[1..])), "");
        NothingInside(q[1..]);
      }
    }
  }

  lemma ResetKeepsOtherMembers(ms: seq<Member>, path: seq<string>, other: string)
    requires path != [] && UniqueNames(ms) && other != path[0]
    ensures Find(ResetAt(ms, path), other) == Find(ms, other)
  {
    FindInRemove(ms, path[0], other);
    if |path| > 1 && Find(ms, path[0]).Some? && Find(ms, path[0]).value.Object? {
      FindInPut(ms, path[0], Object(ResetAt(Find(ms, path[0]).value.members, path[1..])), other);
    }
  }

  // -------- reset undoes set --------

  /** Something that is no object stands on the way to the key. */
  ghost predicate ScalarOnPath(ms: seq<Member>, path: seq<string>) {
    exists k :: 0 < k < |path| && Lookup(ms, path[..k]).Some? && !Lookup(ms, path[..k]).value.Object?
  }

  lemma ScalarBelow(ms: seq<Member>, path: seq<string>)
    requires |path| > 1
    ensures ScalarOnPath(ms, path)
            <==> match Find(ms, path[0])
                 case None => false
                 case Some(Object(inner)) => ScalarOnPath(inner, path[1..])
                 case Some(_) => true
  {
    assert path[..1] == [path[0]];
    forall k | 1 < k < |path|
      ensures path[..k] != [] && path[..k][0] == path[0] && path[..k][1..] == path[1..][..k - 1]
    {
    }
    if k: nat :| 0 < k < |path| && Lookup(ms, path[..k]).Some? && !Lookup(ms, path[..k]).value.Object? {
      if k > 1 {
        assert path[..k][1..] == path[1..][..k - 1];
      }
    }
    if Find(ms, path[0]).Some? && Find(ms, path[0]).value.Object? {
      var inner := Find(ms, path[0]).value.members;
      if k: nat :| 0 < k < |path[1..]| && Lookup(inner, path[1..][..k]).Some?
                   && !Lookup(inner, path[1..][..k]).value.Object? {
        assert path[..k + 1][1..] == path[1..][..k];
        assert Lookup(ms, path[..k + 1]) == Lookup(inner, path[1..][..k]);
      }
    } else if Find(ms, path[0]).Some? {
      assert Lookup(ms, path[..1]) == Find(ms, path[0]);
    }
  }

  /** For a key that is absent from a tidy tree: setting it and resetting it restores the
      very same tree, order included, if and only if no scalar stood on its way. */
  lemma {:induction false} ResetUndoesSet(ms: seq<Member>, path: seq<string>, text: string)
    requires path != [] && WellFormedPath(path) && TidyRoot(ms) && Lookup(ms, path) == None
    ensures ResetAt(SetAt(ms, path, text).0, path) == ms <==> !ScalarOnPath(ms, path)
    decreases |path|
  {
    var name := path[0];
    if |path| == 1 {
      PutBack(ms, name, Text(text));
    } else {
      var child := Find(ms, name);
      var inner := OpenedChild(ms, name);
      var added := SetAt(inner, path[1..], text).0;
      ScalarBelow(ms, path);
      TidyChild(ms, name);
      NothingInside(path[1..]);
      ResetUndoesSet(inner, path[1..], text);
      FindInPut(Open(ms, name), name, Object(added), "");
      if child.Some? && child.value.Object? {
        UndoneInside(ms, name, added, ResetAt(added, path[1..]));
      } else {
        NoScalarInEmpty(path[1..]);
        UndoneAtTheEnd(ms, name, added);
      }
    }
  }

  lemma NoScalarInEmpty(path: seq<string>)
    ensures !ScalarOnPath([], path)
  {
    forall k | 0 < k < |path|
      ensures Lookup([], path[..k]) == None
    {
      NothingInside(path[..k]);
    }
  }

  lemma UndoneInside(ms: seq<Member>, name: string, now: seq<Member>, rest: seq<Member>)
    requires TidyRoot(ms) && Find(ms, name).Some? && Find(ms, name).value.Object?
    ensures var after := Put(ms, name, Object(now));
            (if rest == [] then Remove(after, name) else Put(after, name, Object(rest))) == ms
            <==> rest == Find(ms, name).value.members
  {
    var inner := Find(ms, name).value.members;
    FindInPut(ms, name, Object(now), "");
    TidyChild(ms, name);
    var i := IndexOf(ms, name);
    assert ms[i] == Member(name, Object(inner));
  }

  lemma UndoneAtTheEnd(ms: seq<Member>, name: string, now: seq<Member>)
    requires TidyRoot(ms) && (Find(ms, name).Some? ==> !Find(ms, name).value.Object?)
    ensures Remove(Put(Open(ms, name), name, Object(now)), name) == ms <==> Find(ms, name) == None
  {
    OpenedAtTheEnd(ms, name, Object(now));
    PutBack(Remove(ms, name), name, Object(now));
  }

  // -------- keys with empty segments --------

  /** Everything before the first empty segment is there already. */
  ghost predicate LeadsNowhereNew(ms: seq<Member>, path: seq<string>)
    requires path != []
    decreases |path|
  {
    path[0] == ""
    || (|path| > 1 && Find(ms, path[0]).Some? && Find(ms, path[0]).value.Object?
        && LeadsNowhereNew(Find(ms, path[0]).value.members, path[1..]))
  }

  /** A rejected key leaves the tree alone exactly when the objects before its first empty
      segment exist already; otherwise it has added empty objects or deleted a scalar. */
  lemma {:induction false} RejectedKeysMayStillWrite(ms: seq<Member>, path: seq<string>, text: string)
    requires path != [] && Unique(Object(ms)) && !WellFormedPath(path)
    ensures SetAt(ms, path, text).0 == ms <==> LeadsNowhereNew(ms, path)
    decreases |path|
  {
    if path[0] != "" {
      var name, inner := path[0], OpenedChild(ms, path[0]);
      assert !WellFormedPath(path[1..]) by {
        var i :| 0 <= i < |path| && path[i] == "";
        assert path[1..][i - 1] == "";
      }
      UniqueChild(ms, name);
      RejectedKeysMayStillWrite(inner, path[1..], text);
      FindInOpen(ms, name, "");
      FindInPut(Open(ms, name), name, Object(SetAt(inner, path[1..], text).0), "");
      PutBack(ms, name, Object(inner));
    }
  }

  /** "a." is rejected, and yet the tree has a new empty object. */
  lemma TrailingDotLeavesAnEmptyObject()
    ensures Split("a.") == ["a", ""]
    ensures SetAt([], ["a", ""], "x") == ([Member("a", Object([]))], false)
  {
    assert "a."[1..] == "." && "."[1..] == "";
    assert Split(".") == ["", ""];
    assert ['a'] + "" == "a";
    var path := ["a", ""];
    assert path[1..] == [""];
    assert SetAt([], [""], "x") == ([], false);
    assert OpenedChild([], "a") == [];
    assert Open([], "a") == [Member("a", Object([]))];
    PutBack(Open([], "a"), "a", Object([]));
  }
}
