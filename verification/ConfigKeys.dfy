/** Whole keys: how a key is cut at its dots, and what setting and resetting a key does to
    the value of every other key. */
module ConfigKeys {
  import opened Machine
  import opened ConfigTrees

  // -------- cutting a key --------

  /** The segments with a dot between any two. */
  function Join(path: seq<string>): string
    requires path != []
  {
    if |path| == 1 then path[0] else path[0] + "." + Join(path[1..])
  }

  predicate DotFree(path: seq<string>) {
    forall i | 0 <= i < |path| :: '.' !in path[i]
  }

  /** A key is cut at every dot and nowhere else: the segments contain no dot, and joined by
      dots they are the key. */
  lemma {:induction false} SplitCutsAtDots(key: string)
    ensures DotFree(Split(key)) && Join(Split(key)) == key
  {
    if key != "" {
      var rest := Split(key[1..]);
      SplitCutsAtDots(key[1..]);
      if key[0] == '.' {
        assert ([""] + rest)[1..] == rest;
        assert Join([""] + rest) == "." + Join(rest);
      } else {
        var path := [[key[0]] + rest[0]] + rest[1..];
        assert path[1..] == rest[1..];
        if |rest| > 1 {
          assert Join(path) == [key[0]] + rest[0] + "." + Join(rest[1..]);
        }
      }
    }
  }

  lemma {:induction false} SplitOfOne(segment: string)
    requires '.' !in segment
    ensures Split(segment) == [segment]
  {
    if segment != "" {
      SplitOfOne(segment[1..]);
      assert segment[0] in segment && [segment[0]] + segment[1..] == segment;
    }
  }

  lemma {:induction false} SplitAtFirstDot(segment: string, rest: string)
    requires '.' !in segment
    ensures Split(segment + "." + rest) == [segment] + Split(rest)
  {
    var key := segment + "." + rest;
    if segment == "" {
      assert key == "." + rest && key[1..] == rest;
      assert Split(key) == [""] + Split(rest);
    } else {
      assert key[1..] == segment[1..] + "." + rest;
      SplitAtFirstDot(segment[1..], rest);
      var cut := [segment[1..]] + Split(rest);
      assert key[0] == segment[0] && segment[0] in segment;
      assert [segment[0]] + cut[0] == segment && cut[1..] == Split(rest);
    }
  }

  /** There is no other way to cut it. */
  lemma {:induction false} SplitIsUnique(path: seq<string>)
    requires path != [] && DotFree(path)
    ensures Split(Join(path)) == path
    decreases |path|
  {
    if |path| == 1 {
      SplitOfOne(path[0]);
    } else {
      assert DotFree(path[1..]);
      SplitIsUnique(path[1..]);
      SplitAtFirstDot(path[0], Join(path[1..]));
      assert [path[0]] + path[1..] == path;
    }
  }

  lemma {:induction false} JoinConcat(p: seq<string>, q: seq<string>)
    requires p != [] && q != []
    ensures Join(p + q) == Join(p) + "." + Join(q)
    decreases |p|
  {
    assert (p + q)[1..] == p[1..] + q;
    if |p| > 1 {
      JoinConcat(p[1..], q);
    }
  }

  // -------- which keys are accepted --------

  /** No dot stands at either end, and no two of them side by side. */
  predicate WellFormedKey(key: string) {
    key != "" && key[0] != '.' && DotsSeparate(key)
  }

  predicate DotsSeparate(key: string) {
    forall i | 0 <= i < |key| && key[i] == '.' :: i + 1 < |key| && key[i + 1] != '.'
  }

  lemma {:induction false} EmptySegments(key: string)
    ensures Split(key)[0] == "" <==> key == "" || key[0] == '.'
    ensures DotsSeparate(key) <==> forall i | 0 < i < |Split(key)| :: Split(key)[i] != ""
  {
    if key != "" {
      var rest := Split(key[1..]);
      EmptySegments(key[1..]);
      assert DotsSeparate(key)
          <==> DotsSeparate(key[1..]) && (key[0] == '.' ==> |key| > 1 && key[1] != '.') by {
        assert forall i | 0 < i < |key| :: key[i] == key[1..][i - 1];
        forall i | 0 <= i < |key[1..]|
          ensures key[1..][i] == key[i + 1]
        {
        }
      }
      if key[0] == '.' {
        assert forall i | 0 < i < |Split(key)| :: Split(key)[i] == rest[i - 1];
        assert forall i | 0 <= i < |rest| :: rest[i] == Split(key)[i + 1];
      } else {
        assert forall i | 0 < i < |rest| :: Split(key)[i] == rest[i];
      }
    }
  }

  lemma WellFormedKeysExactly(key: string)
    ensures WellFormedPath(Split(key)) <==> WellFormedKey(key)
  {
    EmptySegments(key);
    if WellFormedPath(Split(key)) {
      assert Split(key)[0] != "";
    }
  }

  // -------- which keys are related --------

  /** `q` is the key `k`, or a key below it. */
  predicate Under(k: string, q: string) {
    q == k || k + "." <= q
  }

  lemma SplitBelow(k: string, rest: string)
    ensures Split(k + "." + rest) == Split(k) + Split(rest)
  {
    SplitCutsAtDots(k);
    SplitCutsAtDots(rest);
    JoinConcat(Split(k), Split(rest));
    SplitIsUnique(Split(k) + Split(rest));
  }

  lemma PrefixIsUnder(k: string, q: string)
    requires Split(k) <= Split(q)
    ensures Under(k, q)
  {
    var p, r := Split(k), Split(q);
    SplitCutsAtDots(k);
    SplitCutsAtDots(q);
    if p != r {
      assert r == p + r[|p|..];
      JoinConcat(p, r[|p|..]);
    }
  }

  lemma UnderIsPrefix(k: string, q: string)
    ensures Split(k) <= Split(q) <==> Under(k, q)
  {
    if Split(k) <= Split(q) {
      PrefixIsUnder(k, q);
    }
    if k + "." <= q {
      SplitBelow(k, q[|k| + 1..]);
      assert q == k + "." + q[|k| + 1..];
    }
  }

  // -------- the value of a key --------

  /** What config_scalar_to_string makes of a node. */
  function Rendered(node: Option<Node>): Option<string> {
    match node
    case Some(Text(text)) => Some(text)
    case Some(Other(rendered)) => rendered
    case _ => None
  }

  function Value(ms: seq<Member>, key: string): Option<string> {
    if WellFormedKey(key) then Rendered(Lookup(ms, Split(key))) else None
  }

  /** Nothing is found below a path that leads to no object. */
  lemma {:induction false} NothingBelow(ms: seq<Member>, path: seq<string>, q: seq<string>)
    requires path != [] && path <= q && path != q
    requires Lookup(ms, path).Some? ==> !Lookup(ms, path).value.Object?
    ensures Lookup(ms, q) == None
    decreases |path|
  {
    if |path| > 1 && Find(ms, path[0]).Some? && Find(ms, path[0]).value.Object? {
      NothingBelow(Find(ms, path[0]).value.members, path[1..], q[1..]);
    }
  }

  /** Whatever is on the way to something is an object. */
  lemma {:induction false} ObjectAbove(ms: seq<Member>, path: seq<string>, q: seq<string>)
    requires path != [] && path <= q && path != q && Lookup(ms, q).Some?
    ensures Lookup(ms, path).Some? && Lookup(ms, path).value.Object?
  {
    if !(Lookup(ms, path).Some? && Lookup(ms, path).value.Object?) {
      NothingBelow(ms, path, q);
    }
  }

  /** Setting a key gives it the value; the keys above and below it have none any more, and
      every other key keeps its value. */
  lemma SetChangesExactly(ms: seq<Member>, key: string, text: string, q: string)
    requires WellFormedKey(key) && Unique(Object(ms))
    ensures var after := SetAt(ms, Split(key), text).0;
            Value(after, q) == if q == key then Some(text)
                               else if Under(key, q) || Under(q, key) then None
                               else Value(ms, q)
  {
    var p, r, after := Split(key), Split(q), SetAt(ms, Split(key), text).0;
    WellFormedKeysExactly(key);
    SetThenLookup(ms, p, text);
    UnderIsPrefix(key, q);
    UnderIsPrefix(q, key);
    SplitCutsAtDots(key);
    SplitCutsAtDots(q);
    if q != key && p <= r {
      NothingBelow(after, p, r);
    } else if q != key && r <= p {
      ObjectAbove(after, r, p);
    } else if q != key {
      SetLeavesOthers(ms, p, text, r);
    }
  }

  /** Above a key that has been reset there is an object or nothing. */
  lemma {:induction false} ResetAbove(ms: seq<Member>, path: seq<string>, q: seq<string>)
    requires q != [] && q <= path && q != path && Unique(Object(ms)) && Lookup(ms, path).Some?
    ensures Rendered(Lookup(ResetAt(ms, path), q)) == None
    decreases |path|
  {
    var inner := Find(ms, path[0]).value.members;
    FindInRemove(ms, path[0], path[0]);
    FindInPut(ms, path[0], Object(ResetAt(inner, path[1..])), path[0]);
    if |q| > 1 {
      UniqueChild(ms, path[0]);
      ResetAbove(inner, path[1..], q[1..]);
    }
  }

  /** Resetting a key that is there takes it and all below it away; every other key keeps its
      value. */
  lemma ResetChangesExactly(ms: seq<Member>, key: string, q: string)
    requires WellFormedKey(key) && Unique(Object(ms)) && Lookup(ms, Split(key)).Some?
    ensures Value(ResetAt(ms, Split(key)), q) == if Under(key, q) then None else Value(ms, q)
  {
    var p, r, after := Split(key), Split(q), ResetAt(ms, Split(key));
    ResetRemovesTheKey(ms, p);
    UnderIsPrefix(key, q);
    UnderIsPrefix(q, key);
    if p <= r && p != r {
      NothingBelow(after, p, r);
    } else if r <= p && p != r {
      ResetAbove(ms, p, r);
      ObjectAbove(ms, r, p);
    } else if p != r {
      ResetLeavesOthers(ms, p, r);
    }
  }
}
