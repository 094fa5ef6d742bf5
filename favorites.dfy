// The favourites list of script.js (`toggleFavorite`): product ids the
// customer has hearted, kept in the order they were added.
module Favorites {

  /** `favorites.indexOf(id)`: the first position of `id`, or |f|. */
  function IndexOf(f: seq<string>, id: string): (k: nat)
    ensures k <= |f|
    ensures k < |f| ==> f[k] == id
    ensures forall j :: 0 <= j < k ==> f[j] != id
    decreases |f|
  {
    if f == [] then 0 else if f[0] == id then 0 else 1 + IndexOf(f[1..], id)
  }

  /** The list after `toggleFavorite(id)`: the first copy of `id` spliced
      out, or `id` pushed at the end. */
  function Toggled(f: seq<string>, id: string): seq<string> {
    var k := IndexOf(f, id);
    if k < |f| then f[..k] + f[k + 1..] else f + [id]
  }

  ghost predicate NoDuplicates(f: seq<string>) {
    forall i, j :: 0 <= i < j < |f| ==> f[i] != f[j]
  }

  /** The module-level `favorites` array. */
  class FavoriteList {
    var ids: seq<string>

    constructor (stored: seq<string>)
      ensures ids == stored
    {
      ids := stored;
    }

    method ToggleFavorite(id: string)
      modifies this
      ensures ids == Toggled(old(ids), id)
    {
      var idx := 0;
      while idx < |ids| && ids[idx] != id
        invariant 0 <= idx <= |ids|
        invariant forall j :: 0 <= j < idx ==> ids[j] != id
      {
        idx := idx + 1;
      }
      IndexOfIsFirst(ids, id, idx);
      if idx < |ids| {
        ids := ids[..idx] + ids[idx + 1..];
      } else {
        ids := ids + [id];
      }
    }
  }

  lemma {:induction false} IndexOfIsFirst(f: seq<string>, id: string, k: nat)
    requires k <= |f| && (k < |f| ==> f[k] == id)
    requires forall j :: 0 <= j < k ==> f[j] != id
    ensures IndexOf(f, id) == k
    decreases |f|
  {
    if f != [] && k > 0 {
      forall j | 0 <= j < k - 1 ensures f[1..][j] != id {
        assert f[1..][j] == f[j + 1];
      }
      IndexOfIsFirst(f[1..], id, k - 1);
    }
  }

  /** In a list without repeats, toggling flips whether `id` is a favourite. */
  lemma ToggleFlips(f: seq<string>, id: string)
    requires NoDuplicates(f)
    ensures id in Toggled(f, id) <==> id !in f
  {
    var k := IndexOf(f, id);
    if k < |f| {
      var g := f[..k] + f[k + 1..];
      forall j | 0 <= j < |g| ensures g[j] != id {
        if j < k {
          assert g[j] == f[j];
        } else {
          assert g[j] == f[j + 1] && f[k] == id;
        }
      }
    }
  }

  /** Toggling one id leaves every other id as it was. */
  lemma ToggleKeepsOthers(f: seq<string>, id: string, other: string)
    requires other != id
    ensures other in Toggled(f, id) <==> other in f
  {
    var k := IndexOf(f, id);
    if k < |f| {
      assert f == f[..k] + [id] + f[k + 1..];
    }
  }

  lemma ToggleKeepsNoDuplicates(f: seq<string>, id: string)
    requires NoDuplicates(f)
    ensures NoDuplicates(Toggled(f, id))
  {
    var k := IndexOf(f, id);
    var g := Toggled(f, id);
    if k < |f| {
      forall a, b | 0 <= a < b < |g| ensures g[a] != g[b] {
        var a0 := if a < k then a else a + 1;
        var b0 := if b < k then b else b + 1;
        assert g[a] == f[a0] && g[b] == f[b0];
      }
    } else {
      forall a, b | 0 <= a < b < |g| ensures g[a] != g[b] {
        if b == |f| {
          assert g[a] == f[a];
        }
      }
    }
  }

  /** Hearting a new id and un-hearting it again restores the list exactly. */
  lemma ToggleTwiceNew(f: seq<string>, id: string)
    requires id !in f
    ensures Toggled(Toggled(f, id), id) == f
  {
    IndexOfIsFirst(f + [id], id, |f|);
    assert (f + [id])[..|f|] == f;
  }

  /** Un-hearting an id and hearting it again moves it to the end. */
  lemma ToggleTwiceOld(f: seq<string>, id: string)
    requires NoDuplicates(f) && id in f
    ensures Toggled(Toggled(f, id), id) == f[..IndexOf(f, id)] + f[IndexOf(f, id) + 1..] + [id]
  {
    var g := Toggled(f, id);
    ToggleFlips(f, id);
    IndexOfIsFirst(g, id, |g|);
  }
}
