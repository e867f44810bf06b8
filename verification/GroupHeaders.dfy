/**
 Group headers in the generated Vm interface: the order the cheatcodes are sorted by, and the
 function that inserts a header before each group into the very list it iterates over.
 */
module GroupHeaders {

  /** The fields of a Cheatcode that sorting and headers look at or change. */
  datatype Cheat = Cheat(
    id: string,
    description: string,
    declaration: string,
    group: string,
    status: string,
    safety: string)

  /** Python's str order: by code point, a proper prefix first. */
  predicate Less(a: string, b: string) {
    if a == "" then b != ""
    else if b == "" then false
    else if a[0] != b[0] then a[0] < b[0]
    else Less(a[1..], b[1..])
  }

  function Cmp(a: Cheat, b: Cheat): int {
    if a.group != b.group then (if Less(a.group, b.group) then -1 else 1)
    else if a.status != b.status then (if Less(a.status, b.status) then -1 else 1)
    else if a.safety != b.safety then (if Less(a.safety, b.safety) then -1 else 1)
    else if a.id != b.id then (if Less(a.id, b.id) then -1 else 1)
    else 0
  }

  lemma {:induction false} LessTotal(a: string, b: string)
    ensures a != b ==> (Less(a, b) <==> !Less(b, a))
    ensures !Less(a, a)
  {
    if a != "" {
      LessTotal(a[1..], a[1..]);
      if b != "" && a[0] == b[0] {
        LessTotal(a[1..], b[1..]);
        assert a == [a[0]] + a[1..] && b == [b[0]] + b[1..];
      }
    }
  }

  lemma {:induction false} LessTransitive(a: string, b: string, c: string)
    requires Less(a, b) && Less(b, c)
    ensures Less(a, c)
  {
    if a != "" && a[0] == b[0] && b[0] == c[0] {
      LessTransitive(a[1..], b[1..], c[1..]);
    }
  }

  lemma LessOrEqualTransitive(a: string, b: string, c: string)
    requires (a == b || Less(a, b)) && (b == c || Less(b, c))
    ensures a == c ==> a == b
    ensures a == c || Less(a, c)
  {
    LessTotal(a, b);
    LessTotal(b, c);
    if a != b && b != c {
      LessTransitive(a, b, c);
      LessTotal(a, c);
    }
  }

  /** The comparison is antisymmetric, total, and zero exactly on equal sort keys. */
  lemma CmpAntisymmetric(a: Cheat, b: Cheat)
    ensures Cmp(a, b) == -Cmp(b, a)
    ensures Cmp(a, b) == 0 <==>
      a.group == b.group && a.status == b.status && a.safety == b.safety && a.id == b.id
  {
    LessTotal(a.group, b.group);
    LessTotal(a.status, b.status);
    LessTotal(a.safety, b.safety);
    LessTotal(a.id, b.id);
  }

  /** The comparison is transitive, so together with its antisymmetry a total preorder. */
  lemma CmpTransitive(a: Cheat, b: Cheat, c: Cheat)
    requires Cmp(a, b) <= 0 && Cmp(b, c) <= 0
    ensures Cmp(a, c) <= 0
  {
    LessOrEqualTransitive(a.group, b.group, c.group);
    if a.group == c.group {
      LessOrEqualTransitive(a.status, b.status, c.status);
      if a.status == c.status {
        LessOrEqualTransitive(a.safety, b.safety, c.safety);
        if a.safety == c.safety {
          LessOrEqualTransitive(a.id, b.id, c.id);
        }
      }
    }
  }

  /** What list.sort leaves behind: no element is smaller than the one before it. */
  predicate SortedInPlace(cs: seq<Cheat>) {
    forall i | 0 < i < |cs| :: Cmp(cs[i - 1], cs[i]) <= 0
  }

  // ---- headers ----

  /** str.upper on an ASCII character. */
  function Upper(c: char): char {
    if 'a' <= c <= 'z' then (c as int - 32) as char else c
  }

  /** group(s), for a non-empty s; on an empty one the source's s[0] raises. */
  function Title(s: string): string
    requires s != ""
  {
    if s == "evm" then "EVM" else if s == "json" then "JSON" else [Upper(s[0])] + s[1..]
  }

  /** A copy of the cheatcode turned into the comment line above its group. */
  function Header(c: Cheat): Cheat
    requires c.group != ""
  {
    c.(description := "", declaration := "// ======== " + Title(c.group) + " ========")
  }

  predicate Named(cs: seq<Cheat>) {
    forall i | 0 <= i < |cs| :: cs[i].group != ""
  }

  function Groups(cs: seq<Cheat>): set<string> {
    set i | 0 <= i < |cs| :: cs[i].group
  }

  /** The list with a header before each cheatcode whose group was not seen yet. */
  function WithHeaders(cs: seq<Cheat>, seen: set<string>): seq<Cheat>
    requires Named(cs)
  {
    if cs == [] then []
    else if cs[0].group in seen then [cs[0]] + WithHeaders(cs[1..], seen)
    else [Header(cs[0]), cs[0]] + WithHeaders(cs[1..], seen + {cs[0].group})
  }

  lemma GroupsOfHead(cs: seq<Cheat>)
    requires cs != []
    ensures Groups(cs) == {cs[0].group} + Groups(cs[1..])
  {
    assert cs == [cs[0]] + cs[1..];
    GroupsConcat([cs[0]], cs[1..]);
  }

  lemma {:induction false} WithHeadersAppend(cs: seq<Cheat>, c: Cheat, seen: set<string>)
    requires Named(cs) && c.group != ""
    ensures WithHeaders(cs + [c], seen) == WithHeaders(cs, seen)
      + (if c.group in seen + Groups(cs) then [c] else [Header(c), c])
  {
    if cs == [] {
      assert [c][1..] == [];
    } else {
      var seen' := seen + {cs[0].group};
      assert (cs + [c])[1..] == cs[1..] + [c];
      GroupsOfHead(cs);
      WithHeadersAppend(cs[1..], c, if cs[0].group in seen then seen else seen');
    }
  }

  /** Originals before j are done; with `headed`, the header of original j was just inserted. */
  ghost predicate Reached(items: seq<Cheat>, i: int, seen: set<string>, was: seq<Cheat>, j: nat, headed: bool) {
    && j <= |was| && Named(was[..j])
    && (headed ==> j < |was| && was[j].group != "" && was[j].group !in Groups(was[..j]))
    && var front := WithHeaders(was[..j], {}) + (if headed then [Header(was[j])] else []);
       && items == front + was[j..]
       && i == |front|
       && seen == Groups(was[..j]) + (if headed then {was[j].group} else {})
  }

  lemma CurrentIsOriginal(items: seq<Cheat>, i: int, seen: set<string>, was: seq<Cheat>, j: nat, headed: bool)
    requires Reached(items, i, seen, was, j, headed) && i < |items|
    ensures 0 <= i && j < |was| && items[i] == was[j]
    ensures items[i].group in seen ==> was[j].group != ""
  {
    if was[j].group in seen && !headed {
      var k :| 0 <= k < j && was[..j][k].group == was[j].group;
    }
  }

  lemma OriginalPassed(items: seq<Cheat>, i: nat, seen: set<string>, was: seq<Cheat>, j: nat, headed: bool)
    requires Reached(items, i, seen, was, j, headed) && j < |was|
    requires was[j].group in seen && was[j].group != ""
    ensures Reached(items, i + 1, seen, was, j + 1, false)
  {
    assert was[..j + 1] == was[..j] + [was[j]];
    GroupsConcat(was[..j], [was[j]]);
    WithHeadersAppend(was[..j], was[j], {});
    assert WithHeaders(was[..j + 1], {})
        == WithHeaders(was[..j], {}) + (if headed then [Header(was[j])] else []) + [was[j]];
    assert was[j..] == [was[j]] + was[j + 1..];
  }

  lemma GroupsConcat(a: seq<Cheat>, b: seq<Cheat>)
    ensures Groups(a + b) == Groups(a) + Groups(b)
  {
    assert forall i | 0 <= i < |a| :: (a + b)[i] == a[i];
    assert forall i | |a| <= i < |a + b| :: (a + b)[i] == b[i - |a|];
    forall g | g in Groups(b)
      ensures g in Groups(a + b)
    {
      var k :| 0 <= k < |b| && b[k].group == g;
      assert (a + b)[|a| + k] == b[k];
    }
  }

  lemma HeaderInserted(items: seq<Cheat>, i: nat, seen: set<string>, was: seq<Cheat>, j: nat, headed: bool)
    requires Reached(items, i, seen, was, j, headed) && i < |items|
    requires items[i].group !in seen && items[i].group != ""
    ensures !headed && j < |was|
    ensures Reached(items[..i] + [Header(items[i])] + items[i..], i + 1, seen + {items[i].group}, was, j, true)
  {
    CurrentIsOriginal(items, i, seen, was, j, headed);
    assert items[..i] == WithHeaders(was[..j], {}) && items[i..] == was[j..];
  }

  /** Headers up to the first cheatcode without a group, which made the function raise. */
  ghost predicate StoppedAt(was: seq<Cheat>, items: seq<Cheat>, j: nat) {
    && j < |was| && was[j].group == "" && Named(was[..j])
    && items == WithHeaders(was[..j], {}) + was[j..]
  }

  lemma StopsUnnamed(items: seq<Cheat>, i: nat, seen: set<string>, was: seq<Cheat>, j: nat, headed: bool)
    requires Reached(items, i, seen, was, j, headed) && i < |items|
    requires items[i].group !in seen && items[i].group == ""
    ensures StoppedAt(was, items, j) && !Named(was)
  {
    CurrentIsOriginal(items, i, seen, was, j, headed);
  }

  lemma DoneAtEnd(items: seq<Cheat>, i: nat, seen: set<string>, was: seq<Cheat>, j: nat, headed: bool)
    requires Reached(items, i, seen, was, j, headed) && i >= |items|
    ensures Named(was) && items == WithHeaders(was, {})
  {
    assert was[..j] == was;
  }

  /** The list object that prefix_with_group_headers iterates over and inserts into. */
  class CheatList {
    var items: seq<Cheat>

    /**
     The loop runs over the list's own indexes while the list grows.  It ends all the same, and leaves
     the original with its headers; an unnamed group stops it there, with the headers so far inserted.
     */
    method PrefixWithGroupHeaders() returns (ok: bool)
      modifies this
      ensures ok <==> Named(old(items))
      ensures ok ==> items == WithHeaders(old(items), {})
      ensures !ok ==> exists j: nat :: StoppedAt(old(items), items, j)
    {
      ghost var was, j, headed := items, 0, false;
      var s: set<string> := {};
      var i := 0;
      while i < |items|
        invariant 0 <= i && 0 <= j && Reached(items, i, s, was, j, headed)
        decreases |was| - j, !headed
      {
        var cheat := items[i];
        CurrentIsOriginal(items, i, s, was, j, headed);
        if cheat.group in s {
          OriginalPassed(items, i, s, was, j, headed);
          j, headed := j + 1, false;
          i := i + 1;
          continue;
        }
        if cheat.group == "" {
          StopsUnnamed(items, i, s, was, j, headed);
          return false;
        }
        HeaderInserted(items, i, s, was, j, headed);
        s := s + {cheat.group};
        items := items[..i] + [Header(cheat)] + items[i..];
        headed := true;
        i := i + 1;
      }
      DoneAtEnd(items, i, s, was, j, headed);
      ok := true;
    }
  }
}
