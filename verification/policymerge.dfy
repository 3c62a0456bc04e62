/** The in-place merge of one policy's ordered list of rule-list paths. */
module PolicyMerge {
  import opened Model
  import opened Text

  // ----- specification -----

  /** The delta entries the source lacks, each once, in the order of their first occurrence. */
  function Fresh(src: seq<string>, delta: seq<string>): seq<string> {
    if delta == [] then []
    else
      var n := |delta| - 1;
      var added := Fresh(src, delta[..n]);
      if delta[n] in src || delta[n] in added then added else added + [delta[n]]
  }

  function RemoveFirst(s: seq<string>, u: string): seq<string> {
    if s == [] then [] else if s[0] == u then s[1..] else [s[0]] + RemoveFirst(s[1..], u)
  }

  /** One occurrence goes for each delta entry, except for deny-all. */
  function RemoveEach(deny: string, src: seq<string>, delta: seq<string>): seq<string> {
    if delta == [] then src
    else
      var n := |delta| - 1;
      var rest := RemoveEach(deny, src, delta[..n]);
      if Contains(delta[n], deny) then rest else RemoveFirst(rest, delta[n])
  }

  /** Index of the last deny-all entry, or -1. */
  function LastDeny(deny: string, s: seq<string>): (i: int)
    ensures -1 <= i < |s|
    ensures i >= 0 ==> Contains(s[i], deny)
    ensures forall j :: i < j < |s| ==> !Contains(s[j], deny)
  {
    if s == [] then -1
    else if Contains(s[|s| - 1], deny) then |s| - 1
    else LastDeny(deny, s[..|s| - 1])
  }

  /** The last deny-all entry changes places with the final entry. */
  function DenyToEnd(deny: string, s: seq<string>): seq<string> {
    var i := LastDeny(deny, s);
    if i < 0 then s else s[i := s[|s| - 1]][|s| - 1 := s[i]]
  }

  function MergeUses(deny: string, isDelete: bool, src: seq<string>, delta: seq<string>): seq<string> {
    DenyToEnd(deny, if isDelete then RemoveEach(deny, src, delta) else src + Fresh(src, delta))
  }

  /** The effect of one delta entry on the list built so far. */
  function MergeStep(deny: string, isDelete: bool, rules: seq<string>, u: string): seq<string> {
    if !isDelete then if u in rules then rules else rules + [u]
    else if Contains(u, deny) then rules
    else RemoveFirst(rules, u)
  }

  // ----- the algorithm -----

  /** The whole merge: a pass over the delta, then a scan from the end that puts deny-all last. */
  method MergePolicy(deny: string, isDelete: bool, src: seq<string>, delta: seq<string>) returns (rules: seq<string>)
    ensures rules == MergeUses(deny, isDelete, src, delta)
  {
    rules := src;
    for d := 0 to |delta|
      invariant rules == if isDelete then RemoveEach(deny, src, delta[..d]) else src + Fresh(src, delta[..d])
    {
      assert delta[..d + 1][..d] == delta[..d];
      rules := MergeEntry(deny, isDelete, rules, delta[d]);
      if !isDelete {
        assert src + Fresh(src, delta[..d]) + [delta[d]] == src + (Fresh(src, delta[..d]) + [delta[d]]);
      }
    }
    assert delta[..|delta|] == delta;
    rules := PutDenyLast(deny, rules);
  }

  /** The inner loop: remove the entry in place when deleting, append it when it is missing. */
  method MergeEntry(deny: string, isDelete: bool, src: seq<string>, u: string) returns (rules: seq<string>)
    ensures rules == MergeStep(deny, isDelete, src, u)
  {
    rules := src;
    var isExist := false;
    var i := 0;
    while i < |rules|
      invariant i <= |rules|
      invariant rules == src
      invariant isExist ==> isDelete && Contains(u, deny)
      invariant !isExist ==> u !in rules[..i]
    {
      if u == rules[i] {
        isExist := true;
        if isDelete {
          if Contains(u, deny) {
            i := i + 1;
            continue;
          }
          RemoveAtFirst(rules, i);
          rules := rules[..i] + rules[i + 1..];
        }
        break;
      }
      i := i + 1;
    }
    assert !isExist ==> u !in src;
    if isDelete && !isExist {
      RemoveAbsent(src, u);
    }
    if !isExist && !isDelete {
      rules := rules + [u];
    }
  }

  method PutDenyLast(deny: string, src: seq<string>) returns (rules: seq<string>)
    ensures rules == DenyToEnd(deny, src)
  {
    rules := src;
    var last := |rules| - 1;
    var i := last;
    while i >= 0
      invariant -1 <= i <= last == |rules| - 1
      invariant rules == src
      invariant forall k :: i < k < |rules| ==> !Contains(rules[k], deny)
    {
      if Contains(rules[i], deny) {
        LastDenyUnique(deny, rules, i);
        var denyAll := rules[i];
        rules := rules[i := rules[last]];
        rules := rules[last := denyAll];
        return;
      }
      i := i - 1;
    }
  }

  lemma {:induction false} RemoveAtFirst(s: seq<string>, i: nat)
    requires i < |s| && s[i] !in s[..i]
    ensures RemoveFirst(s, s[i]) == s[..i] + s[i + 1..]
  {
    if i > 0 {
      assert s[1..][i - 1] == s[i] && s[0] == s[..i][0] && s[1..][..i - 1] == s[..i][1..];
      RemoveAtFirst(s[1..], i - 1);
      assert [s[0]] + s[1..][..i - 1] == s[..i];
    }
  }

  lemma {:induction false} RemoveAbsent(s: seq<string>, u: string)
    requires u !in s
    ensures RemoveFirst(s, u) == s
  {
    if s != [] {
      RemoveAbsent(s[1..], u);
    }
  }

  lemma RemoveFinal(s: seq<string>, u: string)
    requires u !in s
    ensures RemoveFirst(s + [u], u) == s
  {
    assert (s + [u])[..|s|] == s && (s + [u])[|s| + 1..] == [];
    RemoveAtFirst(s + [u], |s|);
  }

  lemma {:induction false} LastDenyUnique(deny: string, s: seq<string>, i: nat)
    requires i < |s| && Contains(s[i], deny)
    requires forall j :: i < j < |s| ==> !Contains(s[j], deny)
    ensures LastDeny(deny, s) == i
  {
    var last := LastDeny(deny, s);
  }

  // ----- what the specification means -----

  predicate DenyFree(deny: string, s: seq<string>) {
    forall i :: 0 <= i < |s| ==> !Contains(s[i], deny)
  }

  lemma {:induction false} FreshMembers(src: seq<string>, delta: seq<string>)
    ensures forall u :: u in Fresh(src, delta) <==> u in delta && u !in src
    ensures NoDuplicates(Fresh(src, delta))
  {
    if delta != [] {
      var n := |delta| - 1;
      FreshMembers(src, delta[..n]);
      assert forall u :: u in delta <==> u in delta[..n] || u == delta[n];
    }
  }

  /** Which entries are fresh depends only on the membership of the delta's entries in the source. */
  lemma {:induction false} FreshDepends(src: seq<string>, src': seq<string>, delta: seq<string>)
    requires forall u :: u in delta ==> (u in src <==> u in src')
    ensures Fresh(src, delta) == Fresh(src', delta)
  {
    if delta != [] {
      FreshDepends(src, src', delta[..|delta| - 1]);
    }
  }

  /** The entries that a delete of `delta` leaves, in their order. */
  function Without(deny: string, s: seq<string>, delta: seq<string>): seq<string> {
    if s == [] then []
    else
      var n := |s| - 1;
      var rest := Without(deny, s[..n], delta);
      if s[n] in delta && !Contains(s[n], deny) then rest else rest + [s[n]]
  }

  lemma {:induction false} WithoutMembers(deny: string, s: seq<string>, delta: seq<string>)
    ensures forall u :: u in Without(deny, s, delta) <==> u in s && (u !in delta || Contains(u, deny))
    ensures NoDuplicates(s) ==> NoDuplicates(Without(deny, s, delta))
  {
    if s != [] {
      var n := |s| - 1;
      WithoutMembers(deny, s[..n], delta);
      assert forall u :: u in s <==> u in s[..n] || u == s[n];
    }
  }

  lemma {:induction false} WithoutConcat(deny: string, s: seq<string>, t: seq<string>, delta: seq<string>)
    ensures Without(deny, s + t, delta) == Without(deny, s, delta) + Without(deny, t, delta)
  {
    if t == [] {
      assert s + t == s;
    } else {
      var n := |t| - 1;
      WithoutConcat(deny, s, t[..n], delta);
      assert (s + t)[..|s| + n] == s + t[..n];
    }
  }

  lemma {:induction false} WithoutNothing(deny: string, s: seq<string>, delta: seq<string>)
    requires forall u :: u in s ==> u !in delta || Contains(u, deny)
    ensures Without(deny, s, delta) == s
  {
    if s != [] {
      WithoutNothing(deny, s[..|s| - 1], delta);
      assert s[..|s| - 1] + [s[|s| - 1]] == s;
    }
  }

  lemma {:induction false} WithoutAll(deny: string, s: seq<string>, delta: seq<string>)
    requires forall u :: u in s ==> u in delta && !Contains(u, deny)
    ensures Without(deny, s, delta) == []
  {
    if s != [] {
      WithoutAll(deny, s[..|s| - 1], delta);
    }
  }

  lemma {:induction false} WithoutStep(deny: string, s: seq<string>, delta: seq<string>, u: string)
    requires NoDuplicates(s) && !Contains(u, deny)
    ensures Without(deny, s, delta + [u]) == RemoveFirst(Without(deny, s, delta), u)
  {
    if s != [] {
      var n := |s| - 1;
      WithoutStep(deny, s[..n], delta, u);
      var init := Without(deny, s[..n], delta);
      WithoutMembers(deny, s[..n], delta);
      assert s[n] in delta + [u] <==> s[n] in delta || s[n] == u;
      if s[n] == u {
        RemoveAbsent(init, u);
        RemoveFinal(init, u);
      } else {
        RemoveFirstConcat(init, s[n], u);
      }
    }
  }

  lemma {:induction false} RemoveFirstConcat(s: seq<string>, v: string, u: string)
    requires u != v
    ensures RemoveFirst(s + [v], u) == RemoveFirst(s, u) + [v]
  {
    if s == [] {
      assert s + [v] == [v];
    } else {
      RemoveFirstConcat(s[1..], v, u);
      assert (s + [v])[1..] == s[1..] + [v];
    }
  }

  /** On a duplicate-free source the element-by-element delete is the order-preserving filter. */
  lemma {:induction false} RemoveEachIsWithout(deny: string, src: seq<string>, delta: seq<string>)
    requires NoDuplicates(src)
    ensures RemoveEach(deny, src, delta) == Without(deny, src, delta)
  {
    if delta == [] {
      WithoutNothing(deny, src, delta);
    } else {
      var n := |delta| - 1;
      RemoveEachIsWithout(deny, src, delta[..n]);
      assert delta == delta[..n] + [delta[n]];
      if Contains(delta[n], deny) {
        WithoutDeny(deny, src, delta[..n], delta[n]);
      } else {
        WithoutStep(deny, src, delta[..n], delta[n]);
      }
    }
  }

  lemma {:induction false} WithoutDeny(deny: string, s: seq<string>, delta: seq<string>, u: string)
    requires Contains(u, deny)
    ensures Without(deny, s, delta + [u]) == Without(deny, s, delta)
  {
    if s != [] {
      WithoutDeny(deny, s[..|s| - 1], delta, u);
    }
  }

  // ----- order -----

  /** One entry stands somewhere before the other. */
  predicate Before(s: seq<string>, u: string, v: string) {
    exists i, j :: 0 <= i < j < |s| && s[i] == u && s[j] == v
  }

  lemma BeforeConcat(a: seq<string>, b: seq<string>, u: string, v: string)
    ensures Before(a, u, v) || Before(b, u, v) || (u in a && v in b) ==> Before(a + b, u, v)
  {
    if i, j :| 0 <= i < j < |a| && a[i] == u && a[j] == v {
      assert (a + b)[i] == u && (a + b)[j] == v;
    }
    if i, j :| 0 <= i < j < |b| && b[i] == u && b[j] == v {
      assert (a + b)[|a| + i] == u && (a + b)[|a| + j] == v;
    }
    if u in a && v in b {
      var i :| 0 <= i < |a| && a[i] == u;
      var j :| 0 <= j < |b| && b[j] == v;
      assert (a + b)[i] == u && (a + b)[|a| + j] == v;
    }
  }

  /** New entries keep the order in which the delta first names them. */
  lemma {:induction false} FreshInOrder(src: seq<string>, delta: seq<string>, i: nat, j: nat)
    requires i < j < |delta| && delta[i] !in src && delta[j] !in src && delta[j] !in delta[..j]
    ensures Before(Fresh(src, delta), delta[i], delta[j])
  {
    var n := |delta| - 1;
    FreshMembers(src, delta[..n]);
    if j < n {
      assert delta[..n][..j] == delta[..j];
      FreshInOrder(src, delta[..n], i, j);
      BeforeConcat(Fresh(src, delta[..n]), [delta[n]], delta[i], delta[j]);
    } else {
      assert delta[..n][i] == delta[i];
      BeforeConcat(Fresh(src, delta[..n]), [delta[n]], delta[i], delta[j]);
    }
  }

  /** What a delete leaves keeps its order. */
  lemma {:induction false} WithoutInOrder(deny: string, s: seq<string>, delta: seq<string>, i: nat, j: nat)
    requires i < j < |s|
    requires s[i] !in delta || Contains(s[i], deny)
    requires s[j] !in delta || Contains(s[j], deny)
    ensures Before(Without(deny, s, delta), s[i], s[j])
  {
    hide Contains;
    var n := |s| - 1;
    WithoutMembers(deny, s[..n], delta);
    if j < n {
      WithoutInOrder(deny, s[..n], delta, i, j);
      BeforeConcat(Without(deny, s[..n], delta), [s[n]], s[i], s[j]);
    } else {
      assert s[..n][i] == s[i];
      BeforeConcat(Without(deny, s[..n], delta), [s[n]], s[i], s[j]);
    }
  }

  /** The newest entry first, then the others in order: what the final swap makes of appended entries. */
  function Rotate(s: seq<string>): seq<string> {
    if s == [] then [] else [s[|s| - 1]] + s[..|s| - 1]
  }

  lemma RotateMembers(s: seq<string>)
    ensures forall u :: u in Rotate(s) <==> u in s
    ensures NoDuplicates(s) ==> NoDuplicates(Rotate(s))
    ensures multiset(Rotate(s)) == multiset(s)
  {
    if s != [] {
      assert s == s[..|s| - 1] + [s[|s| - 1]];
    }
  }

  lemma NoDenySameOrder(deny: string, s: seq<string>)
    requires DenyFree(deny, s)
    ensures DenyToEnd(deny, s) == s
  {
    var last := LastDeny(deny, s);
  }

  lemma DenyAlreadyLast(deny: string, s: seq<string>)
    requires s != [] && Contains(s[|s| - 1], deny)
    ensures DenyToEnd(deny, s) == s
  {
    LastDenyUnique(deny, s, |s| - 1);
  }

  lemma SwapShape(deny: string, src: seq<string>, d: string, added: seq<string>)
    requires Contains(d, deny) && DenyFree(deny, added)
    ensures DenyToEnd(deny, src + [d] + added) == src + Rotate(added) + [d]
  {
    var all := src + [d] + added;
    forall j | |src| < j < |all|
      ensures !Contains(all[j], deny)
    {
      assert all[j] == added[j - |src| - 1];
    }
    LastDenyUnique(deny, all, |src|);
    SwapElements(src, d, added);
  }

  lemma SwapElements(src: seq<string>, d: string, added: seq<string>)
    ensures var all := src + [d] + added;
            all[|src| := all[|all| - 1]][|all| - 1 := all[|src|]] == src + Rotate(added) + [d]
  {
    var all := src + [d] + added;
    if added == [] {
      assert all == src + [d];
    } else {
      var n := |added| - 1;
      var x, mid := added[n], added[..n];
      assert all == src + [d] + mid + [x];
      assert all[|src| := x] == src + [x] + mid + [x];
      assert (src + [x] + mid + [x])[|all| - 1 := d] == src + [x] + mid + [d];
      assert Rotate(added) == [x] + mid;
      assert src + [x] + mid == src + ([x] + mid);
    }
  }

  /** An add into a policy that ends in deny-all: the exact order of the result. */
  lemma AddShape(deny: string, src: seq<string>, d: string, delta: seq<string>)
    requires Contains(d, deny)
    requires forall u :: u in delta && Contains(u, deny) ==> u == d
    ensures MergeUses(deny, false, src + [d], delta) == src + Rotate(Fresh(src + [d], delta)) + [d]
  {
    var added := Fresh(src + [d], delta);
    FreshMembers(src + [d], delta);
    assert d in src + [d];
    assert forall i :: 0 <= i < |added| ==> added[i] in added;
    SwapShape(deny, src, d, added);
  }

  /** An add where deny-all plays no part appends the new entries. */
  lemma AddPlain(deny: string, src: seq<string>, delta: seq<string>)
    requires DenyFree(deny, src) && DenyFree(deny, delta)
    ensures MergeUses(deny, false, src, delta) == src + Fresh(src, delta)
  {
    FreshMembers(src, delta);
    var added := Fresh(src, delta);
    assert forall i :: 0 <= i < |added| ==> added[i] in added;
    NoDenySameOrder(deny, src + added);
  }

  /** A delete from a duplicate-free policy that has deny-all last, or nowhere: the filter, order kept. */
  lemma DeleteShape(deny: string, src: seq<string>, delta: seq<string>)
    requires NoDuplicates(src)
    requires DenyFree(deny, src) || (src != [] && Contains(src[|src| - 1], deny))
    ensures MergeUses(deny, true, src, delta) == Without(deny, src, delta)
  {
    RemoveEachIsWithout(deny, src, delta);
    var rest := Without(deny, src, delta);
    WithoutMembers(deny, src, delta);
    if DenyFree(deny, src) {
      NoDenySameOrder(deny, rest);
    } else {
      DenyAlreadyLast(deny, rest);
    }
  }

  /** Adding the same entries again changes nothing, whatever the source. */
  lemma AddFixedPoint(deny: string, src: seq<string>, delta: seq<string>)
    ensures MergeUses(deny, false, MergeUses(deny, false, src, delta), delta) == MergeUses(deny, false, src, delta)
  {
    var all := src + Fresh(src, delta);
    var merged := MergeUses(deny, false, src, delta);
    FreshMembers(src, delta);
    DenyToEndMembers(deny, all);
    FreshMembers(merged, delta);
    assert Fresh(merged, delta) == [] by {
      if Fresh(merged, delta) != [] {
        assert Fresh(merged, delta)[0] in Fresh(merged, delta);
      }
    }
    assert merged + [] == merged;
    if LastDeny(deny, all) >= 0 {
      DenyAlreadyLast(deny, merged);
    } else {
      assert merged == all;
    }
  }

  lemma DenyToEndTwice(deny: string, s: seq<string>)
    ensures DenyToEnd(deny, DenyToEnd(deny, s)) == DenyToEnd(deny, s)
  {
    if LastDeny(deny, s) >= 0 {
      DenyAlreadyLast(deny, DenyToEnd(deny, s));
    }
  }

  /** Adding what is there already changes nothing where deny-all is in its place. */
  lemma AddNothing(deny: string, src: seq<string>, delta: seq<string>)
    requires DenyToEnd(deny, src) == src && forall u :: u in delta ==> u in src
    ensures MergeUses(deny, false, src, delta) == src
  {
    FreshMembers(src, delta);
    assert Fresh(src, delta) == [] || Fresh(src, delta)[0] in Fresh(src, delta);
    assert src + [] == src;
  }

  /** What a delete leaves of a duplicate-free policy depends on the delta's members, not on their order. */
  lemma DeleteByMembers(deny: string, src: seq<string>, delta: seq<string>, delta': seq<string>)
    requires NoDuplicates(src) && forall u :: u in delta <==> u in delta'
    ensures MergeUses(deny, true, src, delta) == MergeUses(deny, true, src, delta')
  {
    RemoveEachIsWithout(deny, src, delta);
    RemoveEachIsWithout(deny, src, delta');
    WithoutByMembers(deny, src, delta, delta');
  }

  lemma {:induction false} WithoutByMembers(deny: string, s: seq<string>, delta: seq<string>, delta': seq<string>)
    requires forall u :: u in delta <==> u in delta'
    ensures Without(deny, s, delta) == Without(deny, s, delta')
  {
    if s != [] {
      WithoutByMembers(deny, s[..|s| - 1], delta, delta');
    }
  }

  lemma DenyToEndMembers(deny: string, s: seq<string>)
    ensures multiset(DenyToEnd(deny, s)) == multiset(s)
    ensures forall u :: u in DenyToEnd(deny, s) <==> u in s
  {
    var i := LastDeny(deny, s);
    var t := DenyToEnd(deny, s);
    forall u
      ensures u in t <==> u in multiset(t)
      ensures u in s <==> u in multiset(s)
    {
    }
  }

  lemma DenyToEndOrder(deny: string, s: seq<string>)
    ensures NoDuplicates(s) ==> NoDuplicates(DenyToEnd(deny, s))
    ensures forall u :: u in s && Contains(u, deny) ==> Contains(DenyToEnd(deny, s)[|s| - 1], deny)
  {
  }

  lemma NoDuplicatesConcat(s: seq<string>, t: seq<string>)
    requires NoDuplicates(s) && NoDuplicates(t) && forall u :: u in t ==> u !in s
    ensures NoDuplicates(s + t)
  {
    forall i, j | 0 <= i < j < |s + t|
      ensures (s + t)[i] != (s + t)[j]
    {
      if i < |s| <= j {
        assert t[j - |s|] in t;
      }
    }
  }

  /** Membership, absence of duplicates and deny-all at the end: what a merge of one policy keeps. */
  lemma MergeFacts(deny: string, isDelete: bool, src: seq<string>, delta: seq<string>)
    requires NoDuplicates(src)
    ensures var merged := MergeUses(deny, isDelete, src, delta);
            && NoDuplicates(merged)
            && (forall u :: u in merged <==>
                  if isDelete then u in src && (u !in delta || Contains(u, deny)) else u in src || u in delta)
            && (forall u :: u in merged && Contains(u, deny) ==> Contains(merged[|merged| - 1], deny))
  {
    var built := if isDelete then RemoveEach(deny, src, delta) else src + Fresh(src, delta);
    if isDelete {
      RemoveEachIsWithout(deny, src, delta);
      WithoutMembers(deny, src, delta);
    } else {
      FreshMembers(src, delta);
      NoDuplicatesConcat(src, Fresh(src, delta));
    }
    DenyToEndMembers(deny, built);
    DenyToEndOrder(deny, built);
  }

  // ----- adds and deletes together -----

  /** The closing deny-all entry, if there is one. */
  function DenyTail(deny: string, s: seq<string>): seq<string> {
    if s != [] && Contains(s[|s| - 1], deny) then [s[|s| - 1]] else []
  }

  function BeforeDeny(deny: string, s: seq<string>): seq<string> {
    s[..|s| - |DenyTail(deny, s)|]
  }

  /** Duplicate-free, and deny-all is recognised at the end or nowhere. */
  predicate Shaped(deny: string, s: seq<string>) {
    NoDuplicates(s) && DenyFree(deny, BeforeDeny(deny, s))
  }

  lemma ShapeOf(deny: string, init: seq<string>, tail: seq<string>, s: seq<string>)
    requires s == init + tail && NoDuplicates(s)
    requires forall u :: u in init ==> !Contains(u, deny)
    requires |tail| <= 1 && forall u :: u in tail ==> Contains(u, deny)
    ensures Shaped(deny, s) && DenyTail(deny, s) == tail && BeforeDeny(deny, s) == init
  {
    hide Contains;
    assert forall i :: 0 <= i < |init| ==> init[i] in init;
    if tail == [] {
      assert s == init;
    } else {
      assert tail[0] in tail && s[|s| - 1] == tail[0];
      assert s[..|init|] == init;
    }
  }

  lemma ShapeSplit(deny: string, s: seq<string>)
    requires Shaped(deny, s)
    ensures s == BeforeDeny(deny, s) + DenyTail(deny, s)
    ensures |DenyTail(deny, s)| <= 1 && forall u :: u in DenyTail(deny, s) ==> Contains(u, deny) && u in s
    ensures forall u :: u in BeforeDeny(deny, s) ==> !Contains(u, deny) && u in s
  {
    hide Contains;
  }

  /** Whatever the delta has of deny-all, the source has too. */
  predicate DenyKnown(deny: string, src: seq<string>, delta: seq<string>) {
    forall u :: u in delta && Contains(u, deny) ==> u in src
  }

  /** Where new entries go: in order when there is no deny-all to keep last, else the newest first. */
  function Placed(deny: string, src: seq<string>, delta: seq<string>): seq<string> {
    if DenyTail(deny, src) == [] then Fresh(src, delta) else Rotate(Fresh(src, delta))
  }

  lemma PlacedMembers(deny: string, src: seq<string>, delta: seq<string>)
    ensures forall u :: u in Placed(deny, src, delta) <==> u in delta && u !in src
  {
    FreshMembers(src, delta);
    RotateMembers(Fresh(src, delta));
  }

  /** An add puts the new entries between the old ones and deny-all. */
  lemma AddForm(deny: string, src: seq<string>, delta: seq<string>)
    requires Shaped(deny, src) && DenyKnown(deny, src, delta)
    ensures MergeUses(deny, false, src, delta) == BeforeDeny(deny, src) + Placed(deny, src, delta) + DenyTail(deny, src)
  {
    if DenyTail(deny, src) == [] {
      assert BeforeDeny(deny, src) == src;
      assert forall i :: 0 <= i < |delta| ==> delta[i] in delta;
      AddPlain(deny, src, delta);
      assert src + Fresh(src, delta) + [] == src + Fresh(src, delta);
    } else {
      var d := src[|src| - 1];
      assert src == BeforeDeny(deny, src) + [d];
      AddShape(deny, BeforeDeny(deny, src), d, delta);
    }
  }

  /** A delete filters the entries before deny-all. */
  lemma DeleteForm(deny: string, src: seq<string>, delta: seq<string>)
    requires Shaped(deny, src)
    ensures var merged := MergeUses(deny, true, src, delta);
            && merged == Without(deny, BeforeDeny(deny, src), delta) + DenyTail(deny, src)
            && Shaped(deny, merged) && DenyTail(deny, merged) == DenyTail(deny, src)
            && BeforeDeny(deny, merged) == Without(deny, BeforeDeny(deny, src), delta)
  {
    hide Contains;
    var init, tail := BeforeDeny(deny, src), DenyTail(deny, src);
    ShapeSplit(deny, src);
    DeleteShape(deny, src, delta);
    WithoutConcat(deny, init, tail, delta);
    WithoutNothing(deny, tail, delta);
    WithoutMembers(deny, init, delta);
    WithoutMembers(deny, src, delta);
    ShapeOf(deny, Without(deny, init, delta), tail, MergeUses(deny, true, src, delta));
  }

  lemma AddKeepsShape(deny: string, src: seq<string>, delta: seq<string>)
    requires Shaped(deny, src) && DenyKnown(deny, src, delta)
    ensures var merged := MergeUses(deny, false, src, delta);
            && Shaped(deny, merged) && DenyTail(deny, merged) == DenyTail(deny, src)
            && BeforeDeny(deny, merged) == BeforeDeny(deny, src) + Placed(deny, src, delta)
  {
    hide Contains, MergeUses;
    AddForm(deny, src, delta);
    MergeFacts(deny, false, src, delta);
    PlacedMembers(deny, src, delta);
    ShapeSplit(deny, src);
    hide DenyTail, BeforeDeny, Placed;
    ShapeOf(deny, BeforeDeny(deny, src) + Placed(deny, src, delta), DenyTail(deny, src),
      MergeUses(deny, false, src, delta));
  }

  /** Deleting what was just added restores the policy, order included. */
  lemma AddThenDelete(deny: string, src: seq<string>, delta: seq<string>)
    requires Shaped(deny, src) && DenyKnown(deny, src, delta)
    requires forall u :: u in delta && u in src ==> Contains(u, deny)
    ensures MergeUses(deny, true, MergeUses(deny, false, src, delta), delta) == src
  {
    hide Contains, MergeUses, Placed, Without, DenyTail;
    var init, placed := BeforeDeny(deny, src), Placed(deny, src, delta);
    ShapeSplit(deny, src);
    AddKeepsShape(deny, src, delta);
    DeleteForm(deny, MergeUses(deny, false, src, delta), delta);
    PlacedMembers(deny, src, delta);
    WithoutConcat(deny, init, placed, delta);
    WithoutAll(deny, placed, delta);
    WithoutNothing(deny, init, delta);
    assert init + [] == init;
  }

  /** An add and a delete of different entries commute, order included. */
  lemma AddDeleteCommute(deny: string, src: seq<string>, gone: seq<string>, added: seq<string>)
    requires Shaped(deny, src) && DenyKnown(deny, src, added)
    requires forall u :: u in gone && u in added ==> Contains(u, deny)
    ensures MergeUses(deny, false, MergeUses(deny, true, src, gone), added)
            == MergeUses(deny, true, MergeUses(deny, false, src, added), gone)
  {
    hide Contains, Placed, Without, DenyTail, BeforeDeny, RemoveEach, DenyToEnd;
    var rest := MergeUses(deny, true, src, gone);
    MergeFacts(deny, true, src, gone);
    DeleteForm(deny, src, gone);
    AddForm(deny, rest, added);
    FreshDepends(src, rest, added);
    AddKeepsShape(deny, src, added);
    DeleteForm(deny, MergeUses(deny, false, src, added), gone);
    PlacedMembers(deny, src, added);
    WithoutConcat(deny, BeforeDeny(deny, src), Placed(deny, src, added), gone);
    WithoutNothing(deny, Placed(deny, src, added), gone);
    SamePlaced(deny, src, rest, added);
  }

  lemma SamePlaced(deny: string, src: seq<string>, src': seq<string>, delta: seq<string>)
    requires Fresh(src, delta) == Fresh(src', delta) && DenyTail(deny, src) == DenyTail(deny, src')
    ensures Placed(deny, src, delta) == Placed(deny, src', delta)
  {
  }

  /** Two adds reach the same entries in either order. */
  lemma AddsCommute(deny: string, src: seq<string>, a: seq<string>, b: seq<string>)
    requires NoDuplicates(src)
    ensures multiset(MergeUses(deny, false, MergeUses(deny, false, src, a), b))
            == multiset(MergeUses(deny, false, MergeUses(deny, false, src, b), a))
  {
    MergeFacts(deny, false, src, a);
    MergeFacts(deny, false, src, b);
    var left := MergeUses(deny, false, MergeUses(deny, false, src, a), b);
    var right := MergeUses(deny, false, MergeUses(deny, false, src, b), a);
    MergeFacts(deny, false, MergeUses(deny, false, src, a), b);
    MergeFacts(deny, false, MergeUses(deny, false, src, b), a);
    SameMembers(left, right);
  }

  lemma {:induction false} CountOfDistinct(s: seq<string>, u: string)
    requires NoDuplicates(s)
    ensures multiset(s)[u] == if u in s then 1 else 0
  {
    if s != [] {
      var n := |s| - 1;
      CountOfDistinct(s[..n], u);
      assert s == s[..n] + [s[n]];
    }
  }

  lemma SameMembers(s: seq<string>, t: seq<string>)
    requires NoDuplicates(s) && NoDuplicates(t) && forall u :: u in s <==> u in t
    ensures multiset(s) == multiset(t)
  {
    forall u
      ensures multiset(s)[u] == multiset(t)[u]
    {
      CountOfDistinct(s, u);
      CountOfDistinct(t, u);
    }
  }
}
