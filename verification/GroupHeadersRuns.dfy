/** What the inserted headers amount to, and how they look on a sorted list. */
module GroupHeadersRuns {
  import opened GroupHeaders

  /** Drop the first item of every group: what a reader who knows only groups would remove. */
  function WithoutFirsts(cs: seq<Cheat>, seen: set<string>): seq<Cheat> {
    if cs == [] then []
    else if cs[0].group in seen then [cs[0]] + WithoutFirsts(cs[1..], seen)
    else WithoutFirsts(cs[1..], seen + {cs[0].group})
  }

  /** Nothing was lost or reordered: removing the first item of each group restores the original. */
  lemma {:induction false} HeadersErase(cs: seq<Cheat>, seen: set<string>)
    requires Named(cs)
    ensures WithoutFirsts(WithHeaders(cs, seen), seen) == cs
  {
    if cs != [] {
      var r, rest := WithHeaders(cs, seen), cs[1..];
      if cs[0].group in seen {
        HeadersErase(rest, seen);
        assert r[1..] == WithHeaders(rest, seen);
      } else {
        var seen' := seen + {cs[0].group};
        HeadersErase(rest, seen');
        assert r[1..] == [cs[0]] + WithHeaders(rest, seen');
        assert r[1..][1..] == WithHeaders(rest, seen');
      }
    }
  }

  /** The head of a list as it stands with headers. */
  function Front(c: Cheat, seen: set<string>): seq<Cheat>
    requires c.group != ""
  {
    if c.group in seen then [c] else [Header(c), c]
  }

  lemma FrontGroups(c: Cheat, seen: set<string>)
    requires c.group != ""
    ensures Groups(Front(c, seen)) == {c.group}
  {
    var front := Front(c, seen);
    assert front[|front| - 1].group == c.group && forall i | 0 <= i < |front| :: front[i].group == c.group;
  }

  lemma HeadUnfolds(cs: seq<Cheat>, seen: set<string>)
    requires Named(cs) && cs != []
    ensures WithHeaders(cs, seen) == Front(cs[0], seen) + WithHeaders(cs[1..], seen + {cs[0].group})
    ensures Groups(Front(cs[0], seen)) == {cs[0].group}
  {
    FrontGroups(cs[0], seen);
    if cs[0].group in seen {
      assert seen + {cs[0].group} == seen;
    }
  }

  /** The first item of each group is a header, and the group's first cheatcode follows it. */
  lemma {:induction false} FirstIsHeader(cs: seq<Cheat>, seen: set<string>, r: seq<Cheat>, i: nat)
    requires Named(cs) && r == WithHeaders(cs, seen) && i < |r|
    requires r[i].group !in seen + Groups(r[..i])
    ensures i + 1 < |r| && r[i + 1].group != "" && r[i] == Header(r[i + 1])
    decreases cs
  {
    HeadUnfolds(cs, seen);
    var front := Front(cs[0], seen);
    var rest := WithHeaders(cs[1..], seen + {cs[0].group});
    if i > 0 {
      assert r[..i][0].group == cs[0].group;
    }
    if i >= |front| {
      assert r[..i] == front + rest[..i - |front|];
      GroupsConcat(front, rest[..i - |front|]);
      FirstIsHeader(cs[1..], seen + {cs[0].group}, rest, i - |front|);
      assert rest[i - |front| + 1] == r[i + 1];
    }
  }

  /** There is one header for each group and no more. */
  lemma {:induction false} OneHeaderPerGroup(cs: seq<Cheat>, seen: set<string>)
    requires Named(cs)
    ensures |WithHeaders(cs, seen)| == |cs| + |Groups(cs) - seen|
  {
    if cs == [] {
      assert Groups(cs) - seen == {};
    } else {
      GroupsOfHead(cs);
      var g, rest := cs[0].group, Groups(cs[1..]);
      if g in seen {
        OneHeaderPerGroup(cs[1..], seen);
        assert Groups(cs) - seen == rest - seen;
      } else {
        OneHeaderPerGroup(cs[1..], seen + {g});
        assert Groups(cs) - seen == {g} + (rest - (seen + {g}));
      }
    }
  }

  // ---- what the comparison and the headers say ----

  /** Where two texts first differ the smaller code point comes first; a text comes before its continuations. */
  predicate DiffersAt(a: string, b: string, k: nat) {
    && k <= |a| && k < |b| && a[..k] == b[..k]
    && (k == |a| || a[k] as int < b[k] as int)
  }

  lemma {:induction false} LessDiffers(a: string, b: string) returns (k: nat)
    requires Less(a, b)
    ensures DiffersAt(a, b, k)
  {
    k := 0;
    if a != "" && a[0] == b[0] {
      k := LessDiffers(a[1..], b[1..]);
      assert a[..k + 1] == [a[0]] + a[1..][..k] && b[..k + 1] == [b[0]] + b[1..][..k];
      k := k + 1;
    }
  }

  lemma {:induction false} DiffersLess(a: string, b: string, k: nat)
    requires DiffersAt(a, b, k)
    ensures Less(a, b)
  {
    if k > 0 {
      assert a[0] == a[..k][0] == b[..k][0] == b[0];
      assert a[1..][..k - 1] == a[..k][1..] && b[1..][..k - 1] == b[..k][1..];
      DiffersLess(a[1..], b[1..], k - 1);
    }
  }

  /** Python's order on texts, told by the place where they differ. */
  ghost predicate Earlier(a: string, b: string) {
    exists k: nat :: DiffersAt(a, b, k)
  }

  lemma LessIsEarlier(a: string, b: string)
    ensures Less(a, b) <==> Earlier(a, b)
  {
    if Less(a, b) {
      var k := LessDiffers(a, b);
    }
    if k: nat :| DiffersAt(a, b, k) {
      DiffersLess(a, b, k);
    }
  }

  /** First by group, then by status, then by safety, and last by id, each in ascending order. */
  lemma CmpIsLexicographic(a: Cheat, b: Cheat)
    ensures Cmp(a, b) == -1
      <==> || Earlier(a.group, b.group)
           || (a.group == b.group && Earlier(a.status, b.status))
           || (a.group == b.group && a.status == b.status && Earlier(a.safety, b.safety))
           || (a.group == b.group && a.status == b.status && a.safety == b.safety && Earlier(a.id, b.id))
    ensures Cmp(a, b) in {-1, 0, 1}
  {
    LessIsEarlier(a.group, b.group);
    LessIsEarlier(a.status, b.status);
    LessIsEarlier(a.safety, b.safety);
    LessIsEarlier(a.id, b.id);
    LessTotal(a.group, b.group);
    LessTotal(a.status, b.status);
    LessTotal(a.safety, b.safety);
    LessTotal(a.id, b.id);
  }

  /** The line above a group: the group's name with a capital, EVM and JSON in capitals, between bars. */
  lemma HeaderText(c: Cheat)
    requires c.group != ""
    ensures c.group == "evm" ==> Header(c).declaration == "// ======== EVM ========"
    ensures c.group == "json" ==> Header(c).declaration == "// ======== JSON ========"
    ensures var text, g := Header(c).declaration, c.group;
      g != "evm" && g != "json" ==>
        && |text| == 12 + |g| + 9 && text[..12] == "// ======== " && text[12 + |g|..] == " ========"
        && text[13..12 + |g|] == g[1..]
        && text[12] as int == (if 'a' <= g[0] <= 'z' then g[0] as int - 'a' as int + 'A' as int else g[0] as int)
    ensures Header(c).description == ""
    ensures Header(c).id == c.id && Header(c).group == c.group && Header(c).status == c.status
            && Header(c).safety == c.safety
  {
    var text, g := Header(c).declaration, c.group;
    if g != "evm" && g != "json" {
      assert text == "// ======== " + [Upper(g[0])] + g[1..] + " ========";
    }
  }

  // ---- sorted lists ----

  /** In a sorted list every pair is in order, not only neighbours. */
  lemma {:induction false} SortedPairs(cs: seq<Cheat>, i: nat, j: nat)
    requires SortedInPlace(cs) && i < j < |cs|
    ensures Cmp(cs[i], cs[j]) <= 0
    decreases j
  {
    if i < j - 1 {
      SortedPairs(cs, i, j - 1);
      CmpTransitive(cs[i], cs[j - 1], cs[j]);
    }
  }

  predicate GroupLe(a: Cheat, b: Cheat) {
    a.group == b.group || Less(a.group, b.group)
  }

  /** Every item with or without headers stems from a cheatcode of its group. */
  lemma {:induction false} StemsFrom(cs: seq<Cheat>, seen: set<string>, k: nat) returns (m: nat)
    requires Named(cs) && k < |WithHeaders(cs, seen)|
    ensures m < |cs| && WithHeaders(cs, seen)[k].group == cs[m].group
  {
    HeadUnfolds(cs, seen);
    var skip := if cs[0].group in seen then 1 else 2;
    m := 0;
    if k >= skip {
      m := StemsFrom(cs[1..], seen + {cs[0].group}, k - skip);
      m := m + 1;
    }
  }

  lemma HeadFirst(cs: seq<Cheat>, m: nat)
    requires SortedInPlace(cs) && m < |cs|
    ensures GroupLe(cs[0], cs[m])
  {
    if m > 0 {
      SortedPairs(cs, 0, m);
    }
  }

  lemma {:induction false} GroupsAscend(cs: seq<Cheat>, seen: set<string>, i: nat, j: nat)
    requires Named(cs) && SortedInPlace(cs) && i < j < |WithHeaders(cs, seen)|
    ensures GroupLe(WithHeaders(cs, seen)[i], WithHeaders(cs, seen)[j])
    decreases cs
  {
    HeadUnfolds(cs, seen);
    var skip := if cs[0].group in seen then 1 else 2;
    if i >= skip {
      GroupsAscend(cs[1..], seen + {cs[0].group}, i - skip, j - skip);
    } else {
      var m := StemsFrom(cs, seen, j);
      HeadFirst(cs, m);
    }
  }

  /** After the sort each group is one block: nothing foreign lies between two of its items. */
  lemma GroupsContiguous(cs: seq<Cheat>, i: nat, k: nat, j: nat)
    requires Named(cs) && SortedInPlace(cs)
    requires i < k < j < |WithHeaders(cs, {})|
    requires WithHeaders(cs, {})[i].group == WithHeaders(cs, {})[j].group
    ensures WithHeaders(cs, {})[k].group == WithHeaders(cs, {})[i].group
  {
    var r := WithHeaders(cs, {});
    GroupsAscend(cs, {}, i, k);
    GroupsAscend(cs, {}, k, j);
    LessOrEqualTransitive(r[i].group, r[k].group, r[j].group);
  }
}
