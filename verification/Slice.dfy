/** String and int32 slices (pkg/slice/slice.go). */
module Slice {
  /** The items of `items` other than `s`, in order. */
  function Without(items: seq<string>, s: string): (r: seq<string>) {
    if items == [] then []
    else
      var rest := Without(items[..|items| - 1], s);
      if items[|items| - 1] == s then rest else rest + [items[|items| - 1]]
  }

  method RemoveString(items: seq<string>, s: string) returns (r: seq<string>)
    ensures r == Without(items, s)
  {
    r := [];
    for i := 0 to |items|
      invariant r == Without(items[..i], s)
    {
      assert items[..i + 1][..i] == items[..i];
      if items[i] == s {
        continue;
      }
      r := r + [items[i]];
    }
    assert items[..|items|] == items;
  }

  method ContainsString(items: seq<string>, s: string) returns (found: bool)
    ensures found <==> s in items
  {
    for i := 0 to |items|
      invariant s !in items[..i]
    {
      if items[i] == s {
        return true;
      }
    }
    return false;
  }

  method ContainsInt32(items: seq<int>, n: int) returns (found: bool)
    ensures found <==> n in items
  {
    for i := 0 to |items|
      invariant n !in items[..i]
    {
      if items[i] == n {
        return true;
      }
    }
    return false;
  }

  /** Removal takes every copy of `s` and nothing else. */
  lemma {:induction false} WithoutRemovesExactly(items: seq<string>, s: string)
    ensures s !in Without(items, s)
    ensures forall x | x != s :: multiset(Without(items, s))[x] == multiset(items)[x]
    ensures s !in items ==> Without(items, s) == items
  {
    if items != [] {
      var n := |items| - 1;
      WithoutRemovesExactly(items[..n], s);
      assert items == items[..n] + [items[n]];
    }
  }

  /** Adding a string that was absent and removing it again gives back the list. */
  lemma RemoveUndoesAppend(items: seq<string>, s: string)
    requires s !in items
    ensures Without(items + [s], s) == items
  {
    assert (items + [s])[..|items|] == items;
    WithoutRemovesExactly(items, s);
  }
}
