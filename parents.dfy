/** The initial parent-proxy registrations (fgfw-lite/config.py lines
    110-123) and the start-up "No parent proxy available!" warning (line
    125). A registration is the `(name, descriptor)` pair handed to
    `addparentproxy`; the registry that parses it is not part of this model. */
module Parents {
  import opened PyStr

  type Registration = (string, string)

  /** A `parents` value holding this text is dropped from the settings. */
  const Marker: string := "6Rc59g0jFlTppvel"

  predicate HasMarker(value: string) {
    Contains(value, Marker)
  }

  /** The registrations made before the `parents` loop: with an upstream
      `parentproxy` P, `direct` goes through `P 0` and `local` is plain
      `direct 100`; without one, `direct` is `direct 0`. */
  function InitialRegistrations(parentproxy: string): (r: seq<Registration>)
    ensures parentproxy != "" ==> r == [("direct", parentproxy + " 0"), ("local", "direct 100")]
    ensures parentproxy == "" ==> r == [("direct", "direct 0")]
    ensures |r| >= 1 && r[0].0 == "direct"
  {
    if parentproxy != "" then [("direct", parentproxy + " 0"), ("local", "direct 100")]
    else [("direct", "direct 0")]
  }

  /** The `parents` entries that get registered, in settings order. */
  function Kept(parents: seq<(string, string)>): seq<(string, string)>
    decreases |parents|
  {
    if parents == [] then []
    else
      var last := parents[|parents| - 1];
      Kept(parents[..|parents| - 1]) + if HasMarker(last.1) then [] else [last]
  }

  /** Keys of the entries whose value holds the marker. */
  function MarkedKeys(parents: seq<(string, string)>): set<string>
    decreases |parents|
  {
    if parents == [] then {}
    else
      var last := parents[|parents| - 1];
      MarkedKeys(parents[..|parents| - 1]) + if HasMarker(last.1) then {last.0} else {}
  }

  /** The section after `remove_option` of every key in `keys`. */
  function RemoveKeys(parents: seq<(string, string)>, keys: set<string>): seq<(string, string)>
    decreases |parents|
  {
    if parents == [] then []
    else
      var last := parents[|parents| - 1];
      RemoveKeys(parents[..|parents| - 1], keys) + if last.0 in keys then [] else [last]
  }

  /** The whole registration plan of `Config.__init__`. */
  function Plan(parentproxy: string, parents: seq<(string, string)>): seq<Registration> {
    InitialRegistrations(parentproxy) + Kept(parents)
  }

  /** A settings section holds each key once. */
  predicate UniqueKeys(parents: seq<(string, string)>) {
    forall i, j :: 0 <= i < j < |parents| ==> parents[i].0 != parents[j].0
  }

  /** An entry is registered iff it is a `parents` entry without the marker. */
  lemma {:induction false} KeptMember(parents: seq<(string, string)>, e: (string, string))
    ensures e in Kept(parents) <==> e in parents && !HasMarker(e.1)
  {
    if parents != [] {
      var pre := parents[..|parents| - 1];
      KeptMember(pre, e);
      assert parents == pre + [parents[|parents| - 1]];
    }
  }

  /** Kept entries stay in settings order: dropping nothing when no value
      holds the marker, and never adding an entry. */
  lemma {:induction false} KeptAll(parents: seq<(string, string)>)
    requires forall i :: 0 <= i < |parents| ==> !HasMarker(parents[i].1)
    ensures Kept(parents) == parents
  {
    if parents != [] {
      var pre := parents[..|parents| - 1];
      KeptAll(pre);
      assert parents == pre + [parents[|parents| - 1]];
    }
  }

  /** The plan starts with the fixed registrations; every later entry comes
      from `parents` and is free of the marker; every marker-free entry of
      `parents` is in it. */
  lemma PlanShape(parentproxy: string, parents: seq<(string, string)>)
    ensures var p := Plan(parentproxy, parents);
            var n := |InitialRegistrations(parentproxy)|;
            && p[..n] == InitialRegistrations(parentproxy)
            && (forall k :: n <= k < |p| ==> p[k] in parents && !HasMarker(p[k].1))
            && (forall e :: e in parents && !HasMarker(e.1) ==> e in p[n..])
  {
    var p := Plan(parentproxy, parents);
    var n := |InitialRegistrations(parentproxy)|;
    assert p[n..] == Kept(parents);
    forall k | n <= k < |p| ensures p[k] in parents && !HasMarker(p[k].1) {
      assert p[k] == Kept(parents)[k - n];
      KeptMember(parents, p[k]);
    }
    forall e | e in parents && !HasMarker(e.1) ensures e in p[n..] {
      KeptMember(parents, e);
    }
  }

  /** One more entry of the snapshot, as the `parents` loop meets it: a
      marked entry adds its key to the removed ones and is not kept. */
  lemma MarkedKeysStep(parents: seq<(string, string)>, i: nat)
    requires i < |parents| && HasMarker(parents[i].1)
    ensures MarkedKeys(parents[..i + 1]) == MarkedKeys(parents[..i]) + {parents[i].0}
    ensures Kept(parents[..i + 1]) == Kept(parents[..i])
  {
    var pre, e := parents[..i + 1], parents[i];
    assert pre[..i] == parents[..i] && pre[i] == e;
  }

  lemma PrefixStepMarked(parents: seq<(string, string)>, i: nat)
    requires i < |parents| && HasMarker(parents[i].1)
    ensures RemoveKeys(RemoveKeys(parents, MarkedKeys(parents[..i])), {parents[i].0})
            == RemoveKeys(parents, MarkedKeys(parents[..i + 1]))
    ensures Kept(parents[..i + 1]) == Kept(parents[..i])
  {
    var keys := MarkedKeys(parents[..i]);
    MarkedKeysStep(parents, i);
    assert MarkedKeys(parents[..i + 1]) == keys + {parents[i].0};
    RemoveKeysStep(parents, keys, parents[i].0);
  }

  /** An unmarked entry removes nothing and is kept. */
  lemma PrefixStepKept(parents: seq<(string, string)>, i: nat)
    requires i < |parents| && !HasMarker(parents[i].1)
    ensures MarkedKeys(parents[..i + 1]) == MarkedKeys(parents[..i])
    ensures Kept(parents[..i + 1]) == Kept(parents[..i]) + [parents[i]]
  {
    var pre, e := parents[..i + 1], parents[i];
    assert pre[..i] == parents[..i] && pre[i] == e;
  }

  /** Removing no key leaves the section as it is. */
  lemma {:induction false} RemoveKeysNone(parents: seq<(string, string)>)
    ensures RemoveKeys(parents, {}) == parents
  {
    if parents != [] {
      RemoveKeysNone(parents[..|parents| - 1]);
    }
  }

  /** Removing one more key is removing the larger key set. */
  lemma {:induction false} RemoveKeysStep(parents: seq<(string, string)>, keys: set<string>, k: string)
    ensures RemoveKeys(RemoveKeys(parents, keys), {k}) == RemoveKeys(parents, keys + {k})
  {
    if parents != [] {
      var pre := parents[..|parents| - 1];
      var last := parents[|parents| - 1];
      RemoveKeysStep(pre, keys, k);
      var r := RemoveKeys(pre, keys);
      var tail := if last.0 in keys then [] else [last];
      assert RemoveKeys(parents, keys) == r + tail;
      RemoveKeysConcat(r, tail, {k});
    }
  }

  lemma {:induction false} RemoveKeysConcat(a: seq<(string, string)>, b: seq<(string, string)>, keys: set<string>)
    ensures RemoveKeys(a + b, keys) == RemoveKeys(a, keys) + RemoveKeys(b, keys)
    decreases |b|
  {
    if b == [] {
      assert a + b == a;
    } else {
      var pre := b[..|b| - 1];
      assert (a + b)[..|a + b| - 1] == a + pre;
      RemoveKeysConcat(a, pre, keys);
    }
  }

  /** With each key once, removing the marked keys leaves exactly the
      registered entries: the settings and the plan agree. */
  lemma {:induction false} RemoveMarkedIsKept(parents: seq<(string, string)>)
    requires UniqueKeys(parents)
    ensures RemoveKeys(parents, MarkedKeys(parents)) == Kept(parents)
  {
    if parents != [] {
      var pre := parents[..|parents| - 1];
      var last := parents[|parents| - 1];
      assert UniqueKeys(pre);
      RemoveMarkedIsKept(pre);
      var keys := MarkedKeys(parents);
      assert forall i :: 0 <= i < |pre| ==> pre[i].0 != last.0;
      MarkedKeysOccur(pre, last.0);
      if HasMarker(last.1) {
        assert keys == MarkedKeys(pre) + {last.0};
        RemoveKeysIgnores(pre, MarkedKeys(pre), last.0);
        assert RemoveKeys(parents, keys) == RemoveKeys(pre, keys);
      } else {
        assert keys == MarkedKeys(pre);
        assert RemoveKeys(parents, keys) == RemoveKeys(pre, keys) + [last];
      }
    }
  }

  /** A key no entry carries is never a marked key. */
  lemma {:induction false} MarkedKeysOccur(parents: seq<(string, string)>, k: string)
    requires forall i :: 0 <= i < |parents| ==> parents[i].0 != k
    ensures k !in MarkedKeys(parents)
  {
    if parents != [] {
      MarkedKeysOccur(parents[..|parents| - 1], k);
    }
  }

  /** Adding a key no entry carries removes nothing more. */
  lemma {:induction false} RemoveKeysIgnores(parents: seq<(string, string)>, keys: set<string>, k: string)
    requires forall i :: 0 <= i < |parents| ==> parents[i].0 != k
    ensures RemoveKeys(parents, keys + {k}) == RemoveKeys(parents, keys)
  {
    if parents != [] {
      RemoveKeysIgnores(parents[..|parents| - 1], keys, k);
    }
  }

  // ---------------------------------------------------------------- warning

  /** The https parents whose priority is below `bound`. */
  function CountBelow(priorities: seq<int>, bound: int): (n: nat)
    ensures n == 0 <==> forall i :: 0 <= i < |priorities| ==> priorities[i] >= bound
    ensures n <= |priorities|
  {
    if priorities == [] then 0
    else
      var rest := CountBelow(priorities[1..], bound);
      assert forall i :: 1 <= i < |priorities| ==> priorities[i] == priorities[1..][i - 1];
      rest + if priorities[0] < bound then 1 else 0
  }

  /** Line 125: outside reverse-proxy mode, warn when no https parent has a
      priority below 100 (the priority the plain `local` entry gets). */
  function NoParentAvailable(rproxy: bool, httpsPriorities: seq<int>): (warn: bool)
    ensures warn <==> !rproxy && forall i :: 0 <= i < |httpsPriorities| ==> httpsPriorities[i] >= 100
  {
    !rproxy && CountBelow(httpsPriorities, 100) == 0
  }
}
