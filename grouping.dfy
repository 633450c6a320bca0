/** Grouping by package URL, as the Snyk enrichers do to send one request per
    distinct package: a map from purl.ToString() to a group holding the
    parsed purl, the reference (BOM ref or SPDX id) of its first member, and
    its members in the order they were met.

    Go's map iteration order is unspecified; the model keeps the groups in
    the order their keys were first met, which is one of the orders Go may
    produce. */
module Grouping {
  import opened Base
  import opened Purl

  /** One visited element: what it is (a handle or a package index), its
      reference, and the outcome of parsing its package URL. */
  datatype Entry<M> = Entry(member: M, ref: string, purl: Result<PackageURL>)

  datatype Group<M> = Group(key: string, purl: PackageURL, ref: string, members: seq<M>)

  /** The key under which an entry is filed; None when its purl did not
      parse. */
  function KeyOf<M>(codec: Codec, e: Entry<M>): Option<string> {
    if e.purl.Ok? then Some(Key(codec, e.purl.value)) else None
  }

  /** The position of the group filed under key, or -1. */
  function Find<M>(gs: seq<Group<M>>, key: string): (j: int)
    ensures -1 <= j < |gs|
    ensures j >= 0 ==> gs[j].key == key && forall i :: 0 <= i < j ==> gs[i].key != key
    ensures j < 0 <==> forall i :: 0 <= i < |gs| ==> gs[i].key != key
    decreases |gs|
  {
    if |gs| == 0 then -1
    else if gs[0].key == key then 0
    else
      var j := Find(gs[1..], key);
      if j < 0 then -1 else j + 1
  }

  /** One step of the grouping loop: an unparsable entry is skipped, a new
      key opens a group, a known key adds the member to its group. */
  function AddEntry<M>(codec: Codec, gs: seq<Group<M>>, e: Entry<M>): seq<Group<M>> {
    if e.purl.Err? then gs
    else
      var key := Key(codec, e.purl.value);
      var j := Find(gs, key);
      if j < 0 then gs + [Group(key, e.purl.value, e.ref, [e.member])]
      else gs[j := gs[j].(members := gs[j].members + [e.member])]
  }

  /** The groups after visiting es in order. */
  function Groups<M>(codec: Codec, es: seq<Entry<M>>): seq<Group<M>>
    decreases |es|
  {
    if |es| == 0 then []
    else AddEntry(codec, Groups(codec, es[..|es| - 1]), es[|es| - 1])
  }

  /** The members of es filed under key, in order. */
  function MembersWith<M>(codec: Codec, es: seq<Entry<M>>, key: string): seq<M>
    decreases |es|
  {
    if |es| == 0 then []
    else
      var rest := MembersWith(codec, es[..|es| - 1], key);
      if KeyOf(codec, es[|es| - 1]) == Some(key) then rest + [es[|es| - 1].member] else rest
  }

  /** No two groups share a key. */
  predicate DistinctKeys<M>(gs: seq<Group<M>>) {
    forall a, b :: 0 <= a < b < |gs| ==> gs[a].key != gs[b].key
  }

  /** Opening a group at the end keeps every key found and adds its own. */
  lemma FindAppend<M>(gs: seq<Group<M>>, grp: Group<M>, k: string)
    ensures Find(gs + [grp], k) >= 0 <==> Find(gs, k) >= 0 || grp.key == k
  {
    if Find(gs, k) >= 0 {
      assert (gs + [grp])[Find(gs, k)] == gs[Find(gs, k)];
    } else if grp.key == k {
      assert (gs + [grp])[|gs|] == grp;
    } else {
      assert forall i :: 0 <= i < |gs + [grp]| ==> (gs + [grp])[i].key != k by {
        forall i | 0 <= i < |gs + [grp]| ensures (gs + [grp])[i].key != k {
          if i < |gs| { assert (gs + [grp])[i] == gs[i]; }
        }
      }
    }
  }

  /** Adding a member to a group leaves every key where it was. */
  lemma FindUpdate<M>(gs: seq<Group<M>>, j: int, grp: Group<M>, k: string)
    requires 0 <= j < |gs| && grp.key == gs[j].key
    ensures Find(gs[j := grp], k) == Find(gs, k)
  {
    var gs2 := gs[j := grp];
    assert forall i :: 0 <= i < |gs| ==> gs2[i].key == gs[i].key;
    var f, f2 := Find(gs, k), Find(gs2, k);
    if f >= 0 && f2 >= 0 {
      assert !(f < f2) && !(f2 < f);
    }
  }

  /** What the members under a key become when one more entry is visited. */
  lemma MembersWithLast<M>(codec: Codec, es: seq<Entry<M>>, k: string)
    requires |es| > 0
    ensures MembersWith(codec, es, k) ==
      if KeyOf(codec, es[|es| - 1]) == Some(k) then MembersWith(codec, es[..|es| - 1], k) + [es[|es| - 1].member]
      else MembersWith(codec, es[..|es| - 1], k)
  {
  }

  /** A key has a group exactly when some member is filed under it. */
  lemma {:induction false} GroupsKey<M>(codec: Codec, es: seq<Entry<M>>, k: string)
    ensures Find(Groups(codec, es), k) >= 0 <==> MembersWith(codec, es, k) != []
    decreases |es|
  {
    if |es| > 0 {
      var pre := es[..|es| - 1];
      var e := es[|es| - 1];
      var gs := Groups(codec, pre);
      GroupsKey(codec, pre, k);
      MembersWithLast(codec, es, k);
      if e.purl.Ok? {
        var key := Key(codec, e.purl.value);
        var j := Find(gs, key);
        if j < 0 {
          FindAppend(gs, Group(key, e.purl.value, e.ref, [e.member]), k);
        } else {
          FindUpdate(gs, j, gs[j].(members := gs[j].members + [e.member]), k);
          GroupsKey(codec, pre, key);
        }
      }
    }
  }

  /** No two groups share a key. */
  lemma {:induction false} GroupsDistinctKeys<M>(codec: Codec, es: seq<Entry<M>>)
    ensures DistinctKeys(Groups(codec, es))
    decreases |es|
  {
    if |es| > 0 {
      var pre := es[..|es| - 1];
      var e := es[|es| - 1];
      var gs := Groups(codec, pre);
      GroupsDistinctKeys(codec, pre);
      if e.purl.Ok? {
        var key := Key(codec, e.purl.value);
        var j := Find(gs, key);
        var gs2 := Groups(codec, es);
        if j < 0 {
          assert forall g :: 0 <= g < |gs| ==> gs2[g] == gs[g];
        } else {
          assert forall g :: 0 <= g < |gs| ==> gs2[g].key == gs[g].key;
        }
      }
    }
  }

  /** Each group holds exactly the members filed under its key, in visiting
      order. */
  lemma {:induction false} GroupsMembers<M>(codec: Codec, es: seq<Entry<M>>, g: int)
    requires 0 <= g < |Groups(codec, es)|
    ensures Groups(codec, es)[g].members == MembersWith(codec, es, Groups(codec, es)[g].key)
    decreases |es|
  {
    var pre := es[..|es| - 1];
    var e := es[|es| - 1];
    var gs := Groups(codec, pre);
    var gs2 := Groups(codec, es);
    MembersWithLast(codec, es, gs2[g].key);
    if e.purl.Err? {
      GroupsMembers(codec, pre, g);
    } else {
      var key := Key(codec, e.purl.value);
      var j := Find(gs, key);
      if j < 0 {
        if g < |gs| {
          assert gs2[g] == gs[g];
          GroupsMembers(codec, pre, g);
        } else {
          GroupsKey(codec, pre, key);
        }
      } else {
        GroupsMembers(codec, pre, g);
        if g != j {
          GroupsDistinctKeys(codec, pre);
          assert gs2[g] == gs[g] && gs[g].key != key;
        }
      }
    }
  }

  /** The grouping has one group per distinct key, and each group holds
      exactly the members filed under its key, in visiting order. */
  lemma GroupsExact<M>(codec: Codec, es: seq<Entry<M>>)
    ensures DistinctKeys(Groups(codec, es))
    ensures forall g :: 0 <= g < |Groups(codec, es)| ==>
      Groups(codec, es)[g].members == MembersWith(codec, es, Groups(codec, es)[g].key)
    ensures forall k :: Find(Groups(codec, es), k) >= 0 <==> MembersWith(codec, es, k) != []
  {
    GroupsDistinctKeys(codec, es);
    forall g | 0 <= g < |Groups(codec, es)|
      ensures Groups(codec, es)[g].members == MembersWith(codec, es, Groups(codec, es)[g].key)
    {
      GroupsMembers(codec, es, g);
    }
    forall k ensures Find(Groups(codec, es), k) >= 0 <==> MembersWith(codec, es, k) != [] {
      GroupsKey(codec, es, k);
    }
  }

  /** Every group is named after the first entry filed under its key: its
      parsed purl and its reference come from that entry. */
  lemma {:induction false} GroupsFirst<M>(codec: Codec, es: seq<Entry<M>>, g: int)
    requires 0 <= g < |Groups(codec, es)|
    ensures exists i :: (0 <= i < |es| && KeyOf(codec, es[i]) == Some(Groups(codec, es)[g].key)
      && (forall i' :: 0 <= i' < i ==> KeyOf(codec, es[i']) != Some(Groups(codec, es)[g].key))
      && Groups(codec, es)[g].ref == es[i].ref && Ok(Groups(codec, es)[g].purl) == es[i].purl)
    decreases |es|
  {
    var pre := es[..|es| - 1];
    var e := es[|es| - 1];
    var gs := Groups(codec, pre);
    var gs2 := Groups(codec, es);
    var key := gs2[g].key;
    if g < |gs| {
      GroupsFirst(codec, pre, g);
      assert gs2[g].key == gs[g].key && gs2[g].ref == gs[g].ref && gs2[g].purl == gs[g].purl;
      var i :| 0 <= i < |pre| && KeyOf(codec, pre[i]) == Some(gs[g].key)
        && (forall i' :: 0 <= i' < i ==> KeyOf(codec, pre[i']) != Some(gs[g].key))
        && gs[g].ref == pre[i].ref && Ok(gs[g].purl) == pre[i].purl;
      assert es[i] == pre[i];
      assert forall i' :: 0 <= i' < i ==> es[i'] == pre[i'];
    } else {
      assert e.purl.Ok? && Find(gs, key) < 0;
      GroupsKey(codec, pre, key);
      MembersWithEmpty(codec, pre, key);
      assert forall i' :: 0 <= i' < |pre| ==> es[i'] == pre[i'];
    }
  }

  /** An entry filed under key puts its member among MembersWith(key). */
  lemma {:induction false} MembersWithHas<M>(codec: Codec, es: seq<Entry<M>>, key: string, i: int)
    requires 0 <= i < |es| && KeyOf(codec, es[i]) == Some(key)
    ensures es[i].member in MembersWith(codec, es, key)
    decreases |es|
  {
    if i < |es| - 1 {
      MembersWithHas(codec, es[..|es| - 1], key, i);
    }
  }

  /** No member is filed under key exactly when no entry has that key. */
  lemma {:induction false} MembersWithEmpty<M>(codec: Codec, es: seq<Entry<M>>, key: string)
    ensures MembersWith(codec, es, key) == [] <==> forall i :: 0 <= i < |es| ==> KeyOf(codec, es[i]) != Some(key)
    decreases |es|
  {
    if |es| > 0 {
      var pre := es[..|es| - 1];
      MembersWithEmpty(codec, pre, key);
      assert forall i :: 0 <= i < |pre| ==> es[i] == pre[i];
    }
  }

  /** A member filed under key comes from an entry filed under key. */
  lemma {:induction false} MembersWithFrom<M>(codec: Codec, es: seq<Entry<M>>, key: string, m: M)
    requires m in MembersWith(codec, es, key)
    ensures exists i :: 0 <= i < |es| && es[i].member == m && KeyOf(codec, es[i]) == Some(key)
    decreases |es|
  {
    var pre := es[..|es| - 1];
    if m in MembersWith(codec, pre, key) {
      MembersWithFrom(codec, pre, key, m);
      var i :| 0 <= i < |pre| && pre[i].member == m && KeyOf(codec, pre[i]) == Some(key);
      assert es[i] == pre[i];
    } else {
      assert es[|es| - 1].member == m && KeyOf(codec, es[|es| - 1]) == Some(key);
    }
  }

  /** Distinct visited elements. */
  predicate DistinctMembers<M(==)>(es: seq<Entry<M>>) {
    forall i, j :: 0 <= i < j < |es| ==> es[i].member != es[j].member
  }

  /** When the visited elements are distinct, every parsable one is in
      exactly one group, the one filed under its key, and an unparsable one
      is in none. */
  lemma GroupOf<M>(codec: Codec, es: seq<Entry<M>>, i: int, g: int)
    requires DistinctMembers(es)
    requires 0 <= i < |es| && 0 <= g < |Groups(codec, es)|
    ensures es[i].member in Groups(codec, es)[g].members <==> KeyOf(codec, es[i]) == Some(Groups(codec, es)[g].key)
  {
    var gs := Groups(codec, es);
    GroupsMembers(codec, es, g);
    if KeyOf(codec, es[i]) == Some(gs[g].key) {
      MembersWithHas(codec, es, gs[g].key, i);
    }
    if es[i].member in gs[g].members {
      MembersWithFrom(codec, es, gs[g].key, es[i].member);
      var i' :| 0 <= i' < |es| && es[i'].member == es[i].member && KeyOf(codec, es[i']) == Some(gs[g].key);
      assert i' == i;
    }
  }

  /** The loop step, given the position the key map holds for the key. */
  lemma AddEntryAt<M>(codec: Codec, gs: seq<Group<M>>, e: Entry<M>, j: int)
    requires e.purl.Ok? && DistinctKeys(gs)
    requires j == -1 || (0 <= j < |gs| && gs[j].key == Key(codec, e.purl.value))
    requires j == -1 ==> forall i :: 0 <= i < |gs| ==> gs[i].key != Key(codec, e.purl.value)
    ensures Find(gs, Key(codec, e.purl.value)) == j
  {
  }

  /** When the visited elements are distinct, no element is in two groups. */
  lemma GroupsDisjoint<M>(codec: Codec, es: seq<Entry<M>>, a: int, b: int, m: M)
    requires DistinctMembers(es)
    requires 0 <= a < |Groups(codec, es)| && 0 <= b < |Groups(codec, es)|
    requires m in Groups(codec, es)[a].members && m in Groups(codec, es)[b].members
    ensures a == b
  {
    var gs := Groups(codec, es);
    GroupsMembers(codec, es, a);
    GroupsDistinctKeys(codec, es);
    MembersWithFrom(codec, es, gs[a].key, m);
    var i :| 0 <= i < |es| && es[i].member == m && KeyOf(codec, es[i]) == Some(gs[a].key);
    GroupOf(codec, es, i, b);
  }

  /** Groups that share no member. */
  predicate Disjoint<M(==)>(gs: seq<Group<M>>) {
    forall a, b, m :: 0 <= a < |gs| && 0 <= b < |gs| && m in gs[a].members && m in gs[b].members ==> a == b
  }

  lemma GroupsAreDisjoint<M>(codec: Codec, es: seq<Entry<M>>)
    requires DistinctMembers(es)
    ensures Disjoint(Groups(codec, es))
  {
    var gs := Groups(codec, es);
    forall a, b, m | 0 <= a < |gs| && 0 <= b < |gs| && m in gs[a].members && m in gs[b].members
      ensures a == b
    {
      GroupsDisjoint(codec, es, a, b, m);
    }
  }

  /** Every member of a group holds its group's answer, and nothing else
      holds one. */
  predicate Delivered<M(==), D(==)>(gs: seq<Group<M>>, fetch: PackageURL -> Result<Option<D>>, data: map<M, D>) {
    (forall g, m :: 0 <= g < |gs| && m in gs[g].members ==>
      (m in data <==> Answer(fetch(gs[g].purl)).Some?) && (m in data ==> data[m] == Answer(fetch(gs[g].purl)).value))
    && (forall m :: m in data ==> exists g :: 0 <= g < |gs| && m in gs[g].members)
  }

  /** The data a group's answer gives its members: the list when the request
      succeeded and the document had data, nothing otherwise. */
  function Answer<D>(r: Result<Option<D>>): Option<D> {
    if r.Ok? && r.value.Some? then r.value else None
  }

  /** A member of a group holds its group's answer, if any. */
  lemma DeliveredMember<M, D>(gs: seq<Group<M>>, fetch: PackageURL -> Result<Option<D>>, data: map<M, D>, g: int, m: M)
    requires Delivered(gs, fetch, data) && 0 <= g < |gs| && m in gs[g].members
    ensures m in data <==> Answer(fetch(gs[g].purl)).Some?
    ensures m in data ==> data[m] == Answer(fetch(gs[g].purl)).value
  {
  }

  /** What is in no group holds nothing. */
  lemma DeliveredOnlyMembers<M, D>(gs: seq<Group<M>>, fetch: PackageURL -> Result<Option<D>>, data: map<M, D>, m: M)
    requires Delivered(gs, fetch, data)
    requires forall g :: 0 <= g < |gs| ==> m !in gs[g].members
    ensures m !in data
  {
  }

  /** The fetch loop: one request per group, for the group's purl; when it
      succeeds with data, every member of the group gets that data, and a
      failure touches no other group. fetch stands for the request and the
      decoding of its body. */
  method FetchGroups<M(==), D(==)>(gs: seq<Group<M>>, fetch: PackageURL -> Result<Option<D>>)
    returns (data: map<M, D>, requests: seq<PackageURL>)
    requires Disjoint(gs)
    ensures |requests| == |gs| && forall g :: 0 <= g < |gs| ==> requests[g] == gs[g].purl
    ensures Delivered(gs, fetch, data)
  {
    data, requests := map[], [];
    var g := 0;
    while g < |gs|
      invariant 0 <= g <= |gs|
      invariant |requests| == g && forall a :: 0 <= a < g ==> requests[a] == gs[a].purl
      invariant forall a, m :: 0 <= a < g && m in gs[a].members ==>
        (m in data <==> Answer(fetch(gs[a].purl)).Some?) && (m in data ==> data[m] == Answer(fetch(gs[a].purl)).value)
      invariant forall m :: m in data ==> exists a :: 0 <= a < g && m in gs[a].members
    {
      var resp := fetch(gs[g].purl);
      requests := requests + [gs[g].purl];
      if resp.Ok? && resp.value.Some? {
        var members := gs[g].members;
        var k := 0;
        ghost var before := data;
        while k < |members|
          invariant 0 <= k <= |members|
          invariant forall m :: m in data <==> m in before || m in members[..k]
          invariant forall m :: m in data ==> data[m] == if m in members[..k] then resp.value.value else before[m]
        {
          data := data[members[k] := resp.value.value];
          assert members[..k + 1] == members[..k] + [members[k]];
          k := k + 1;
        }
        assert members[..|members|] == members;
      }
      g := g + 1;
    }
  }

  /** The map purlGroups, as positions into the list of groups. */
  predicate Indexes<M>(index: map<string, nat>, gs: seq<Group<M>>) {
    (forall k :: k in index ==> index[k] < |gs| && gs[index[k]].key == k)
    && (forall j :: 0 <= j < |gs| ==> gs[j].key in index)
  }

  /** The body of the grouping loop for an entry whose purl parsed: look the
      key up; a miss opens a group named after this entry, and the entry's
      member is appended to the group. */
  method AddToGroups<M>(codec: Codec, gs: seq<Group<M>>, index: map<string, nat>, e: Entry<M>)
    returns (gs': seq<Group<M>>, index': map<string, nat>)
    requires e.purl.Ok? && DistinctKeys(gs) && Indexes(index, gs)
    ensures gs' == AddEntry(codec, gs, e) && Indexes(index', gs')
  {
    var key := Key(codec, e.purl.value);
    if key in index {
      var j := index[key];
      AddEntryAt(codec, gs, e, j);
      gs' := gs[j := gs[j].(members := gs[j].members + [e.member])];
      index' := index;
    } else {
      AddEntryAt(codec, gs, e, -1);
      index' := index[key := |gs|];
      gs' := gs + [Group(key, e.purl.value, e.ref, [e.member])];
    }
  }

  /** Grouping one more entry. */
  lemma GroupsNext<M>(codec: Codec, es: seq<Entry<M>>, i: nat)
    requires i < |es|
    ensures Groups(codec, es[..i + 1]) == AddEntry(codec, Groups(codec, es[..i]), es[i])
  {
    assert es[..i + 1][..i] == es[..i];
  }

  /** Every group's purl is one whose key is the group's key. */
  lemma GroupPurlKey<M>(codec: Codec, es: seq<Entry<M>>, g: int)
    requires 0 <= g < |Groups(codec, es)|
    ensures Key(codec, Groups(codec, es)[g].purl) == Groups(codec, es)[g].key
  {
    GroupsFirst(codec, es, g);
  }

  /** One request per distinct key: no two groups' purls share a key. */
  lemma GroupPurlsDistinct<M>(codec: Codec, es: seq<Entry<M>>)
    ensures forall a, b :: 0 <= a < b < |Groups(codec, es)| ==>
      Key(codec, Groups(codec, es)[a].purl) != Key(codec, Groups(codec, es)[b].purl)
  {
    GroupsDistinctKeys(codec, es);
    forall a, b | 0 <= a < b < |Groups(codec, es)|
      ensures Key(codec, Groups(codec, es)[a].purl) != Key(codec, Groups(codec, es)[b].purl)
    {
      GroupPurlKey(codec, es, a);
      GroupPurlKey(codec, es, b);
    }
  }

  /** The data an entry receives: its group's answer, if it belongs to a
      group and that group's request had data. */
  function AnswerFor<M, D>(codec: Codec, fetch: PackageURL -> Result<Option<D>>, gs: seq<Group<M>>, e: Entry<M>): Option<D> {
    match KeyOf(codec, e)
    case None => None
    case Some(k) =>
      var j := Find(gs, k);
      if j < 0 then None else Answer(fetch(gs[j].purl))
  }

  /** An entry whose purl does not parse is in no group and receives
      nothing; one whose purl parses is in the group of its key and receives
      that group's answer. */
  lemma AnswerOfEntry<M, D>(codec: Codec, fetch: PackageURL -> Result<Option<D>>, es: seq<Entry<M>>, i: int)
    requires 0 <= i < |es| && DistinctMembers(es)
    ensures es[i].purl.Err? ==> (AnswerFor(codec, fetch, Groups(codec, es), es[i]).None?
      && forall g :: 0 <= g < |Groups(codec, es)| ==> es[i].member !in Groups(codec, es)[g].members)
    ensures es[i].purl.Ok? ==> (var j := Find(Groups(codec, es), Key(codec, es[i].purl.value));
      0 <= j && es[i].member in Groups(codec, es)[j].members
      && AnswerFor(codec, fetch, Groups(codec, es), es[i]) == Answer(fetch(Groups(codec, es)[j].purl)))
  {
    var gs := Groups(codec, es);
    forall g | 0 <= g < |gs| ensures es[i].member in gs[g].members <==> KeyOf(codec, es[i]) == Some(gs[g].key) {
      GroupOf(codec, es, i, g);
    }
    if es[i].purl.Ok? {
      var k := Key(codec, es[i].purl.value);
      MembersWithHas(codec, es, k, i);
      GroupsKey(codec, es, k);
      var j := Find(gs, k);
      assert j >= 0;
    }
  }

  /** Each entry's member holds exactly the answer of its group. */
  predicate Receives<M(==), D(==)>(codec: Codec, fetch: PackageURL -> Result<Option<D>>, gs: seq<Group<M>>, es: seq<Entry<M>>, data: map<M, D>) {
    forall i :: 0 <= i < |es| ==>
      (es[i].member in data <==> AnswerFor(codec, fetch, gs, es[i]).Some?)
      && (es[i].member in data ==> data[es[i].member] == AnswerFor(codec, fetch, gs, es[i]).value)
  }

  /** What the fetch loop delivered is what each entry receives. */
  lemma DeliveredReceives<M, D>(codec: Codec, fetch: PackageURL -> Result<Option<D>>, es: seq<Entry<M>>, data: map<M, D>)
    requires DistinctMembers(es) && Delivered(Groups(codec, es), fetch, data)
    ensures Receives(codec, fetch, Groups(codec, es), es, data)
  {
    forall i | 0 <= i < |es|
      ensures (es[i].member in data <==> AnswerFor(codec, fetch, Groups(codec, es), es[i]).Some?)
        && (es[i].member in data ==> data[es[i].member] == AnswerFor(codec, fetch, Groups(codec, es), es[i]).value)
    {
      ReceivesOne(codec, fetch, es, data, i);
    }
  }

  lemma ReceivesOne<M, D>(codec: Codec, fetch: PackageURL -> Result<Option<D>>, es: seq<Entry<M>>, data: map<M, D>, i: int)
    requires DistinctMembers(es) && Delivered(Groups(codec, es), fetch, data) && 0 <= i < |es|
    ensures es[i].member in data <==> AnswerFor(codec, fetch, Groups(codec, es), es[i]).Some?
    ensures es[i].member in data ==> data[es[i].member] == AnswerFor(codec, fetch, Groups(codec, es), es[i]).value
  {
    AnswerOfEntry(codec, fetch, es, i);
    var gs := Groups(codec, es);
    if es[i].purl.Ok? {
      DeliveredMember(gs, fetch, data, Find(gs, Key(codec, es[i].purl.value)), es[i].member);
    } else {
      DeliveredOnlyMembers(gs, fetch, data, es[i].member);
    }
  }

  /** The answer an entry receives is the answer to the purl of the first
      entry filed under the same key. */
  lemma AnswerFromFirst<M, D>(codec: Codec, fetch: PackageURL -> Result<Option<D>>, es: seq<Entry<M>>, i: int)
    requires 0 <= i < |es| && DistinctMembers(es) && es[i].purl.Ok?
    ensures exists f :: (0 <= f <= i && es[f].purl.Ok? && KeyOf(codec, es[f]) == KeyOf(codec, es[i])
      && (forall f' :: 0 <= f' < f ==> KeyOf(codec, es[f']) != KeyOf(codec, es[i]))
      && AnswerFor(codec, fetch, Groups(codec, es), es[i]) == Answer(fetch(es[f].purl.value)))
  {
    AnswerOfEntry(codec, fetch, es, i);
    var gs := Groups(codec, es);
    var j := Find(gs, Key(codec, es[i].purl.value));
    GroupsFirst(codec, es, j);
    var f :| 0 <= f < |es| && KeyOf(codec, es[f]) == Some(gs[j].key)
      && (forall f' :: 0 <= f' < f ==> KeyOf(codec, es[f']) != Some(gs[j].key))
      && gs[j].ref == es[f].ref && Ok(gs[j].purl) == es[f].purl;
    assert f <= i;
  }
}
