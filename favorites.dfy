/**
 * The favourites list of the details page: a list of small records kept in
 * local storage under `userFavorites`, where a toggle either appends a new
 * record for an id or removes the first record carrying it.
 */
module Favorites {
  import opened Wrappers
  import opened Storage

  const FavoritesKey: string := "userFavorites"

  /** The fields of the Jikan item that a favourite copies. */
  datatype ItemData = ItemData(
    titleEnglish: Option<string>,
    title: Option<string>,
    imageUrl: string,        // `images.jpg.image_url`
    kind: Option<string>,    // `type`
    score: Option<real>
  )

  /** One stored favourite: `{id, title, image, type, score}`. */
  datatype Favorite = Favorite(id: string, title: Option<string>, image: string, kind: Option<string>, score: Option<real>)

  /** `getFavorites`: the stored list, or the empty list when nothing is stored. */
  function GetFavorites(store: LocalStorage<seq<Favorite>>): (r: seq<Favorite>)
    reads store
    ensures FavoritesKey !in store.entries ==> r == []
    ensures FavoritesKey in store.entries ==> r == store.entries[FavoritesKey]
  {
    if FavoritesKey in store.entries then store.entries[FavoritesKey] else []
  }

  /** Some entry of `favs` carries `id`. */
  predicate HasId(favs: seq<Favorite>, id: string) {
    exists j :: 0 <= j < |favs| && favs[j].id == id
  }

  /** `k` is the first entry of `favs` carrying `id`. */
  predicate IsFirstWithId(favs: seq<Favorite>, id: string, k: int) {
    && 0 <= k < |favs|
    && favs[k].id == id
    && forall j :: 0 <= j < k ==> favs[j].id != id
  }

  /** `favorites.findIndex(item => item.id === id)`: the first position carrying `id`, or -1. */
  function IndexOf(favs: seq<Favorite>, id: string): (r: int)
    ensures r == -1 <==> !HasId(favs, id)
    ensures r != -1 ==> IsFirstWithId(favs, id, r)
  {
    if favs == [] then -1
    else if favs[0].id == id then 0
    else
      var k := IndexOf(favs[1..], id);
      if k == -1 then -1 else k + 1
  }

  /** The record pushed for a new favourite; its title is `title_english || title`. */
  function NewFavorite(id: string, item: ItemData): (r: Favorite)
    ensures r.id == id
    ensures Truthy(item.titleEnglish) ==> r.title == item.titleEnglish
    ensures !Truthy(item.titleEnglish) ==> r.title == item.title
    ensures r.image == item.imageUrl && r.kind == item.kind && r.score == item.score
  {
    Favorite(id, if Truthy(item.titleEnglish) then item.titleEnglish else item.title, item.imageUrl, item.kind, item.score)
  }

  /** The list `toggleFavorite` leaves behind, as a function of the list it read. */
  function Toggled(favs: seq<Favorite>, id: string, item: ItemData): (r: seq<Favorite>)
    ensures !HasId(favs, id) ==> r == favs + [NewFavorite(id, item)]
    ensures forall k :: IsFirstWithId(favs, id, k) ==> r == favs[..k] + favs[k + 1..]
  {
    var index := IndexOf(favs, id);
    if index == -1 then favs + [NewFavorite(id, item)]
    else favs[..index] + favs[index + 1..]
  }

  /**
   * `toggleFavorite`: reads the stored list, appends a record for `id` with
   * `push` or removes the first record carrying it with `splice(index, 1)`,
   * writes the list back under `userFavorites` and returns it. No other key changes.
   */
  method ToggleFavorite(store: LocalStorage<seq<Favorite>>, id: string, item: ItemData) returns (favorites: seq<Favorite>)
    modifies store
    ensures favorites == Toggled(old(GetFavorites(store)), id, item)
    ensures store.entries == old(store.entries)[FavoritesKey := favorites]
    ensures GetFavorites(store) == favorites
  {
    favorites := GetFavorites(store);
    var index := IndexOf(favorites, id);
    if index == -1 {
      favorites := favorites + [NewFavorite(id, item)];
    } else {
      favorites := favorites[..index] + favorites[index + 1..];
    }
    store.entries := store.entries[FavoritesKey := favorites];
  }

  /** With no entry for `id`, exactly one record is added, at the end, and the others stay as they were. */
  lemma ToggleAppendsWhenAbsent(favs: seq<Favorite>, id: string, item: ItemData)
    requires !HasId(favs, id)
    ensures |Toggled(favs, id, item)| == |favs| + 1
    ensures Toggled(favs, id, item)[..|favs|] == favs
    ensures Toggled(favs, id, item)[|favs|] == NewFavorite(id, item)
  {
    var r := Toggled(favs, id, item);
    assert r == favs + [NewFavorite(id, item)];
  }

  /** With an entry for `id`, exactly the first such entry is removed; the others keep their order. */
  lemma ToggleRemovesFirstMatch(favs: seq<Favorite>, id: string, item: ItemData, k: nat)
    requires IsFirstWithId(favs, id, k)
    ensures |Toggled(favs, id, item)| == |favs| - 1
    ensures forall j :: 0 <= j < k ==> Toggled(favs, id, item)[j] == favs[j]
    ensures forall j :: k <= j < |favs| - 1 ==> Toggled(favs, id, item)[j] == favs[j + 1]
  {
    assert IndexOf(favs, id) == k;
  }

  /** Occurrences of `id` in `favs`. */
  function Count(favs: seq<Favorite>, id: string): (n: nat)
    ensures n <= |favs|
  {
    if favs == [] then 0 else (if favs[0].id == id then 1 else 0) + Count(favs[1..], id)
  }

  lemma {:induction false} CountAppend(a: seq<Favorite>, b: seq<Favorite>, id: string)
    ensures Count(a + b, id) == Count(a, id) + Count(b, id)
  {
    if a != [] {
      assert (a + b)[0] == a[0] && (a + b)[1..] == a[1..] + b;
      CountAppend(a[1..], b, id);
    } else {
      assert a + b == b;
    }
  }

  lemma {:induction false} CountZero(favs: seq<Favorite>, id: string)
    ensures Count(favs, id) == 0 <==> !HasId(favs, id)
  {
    if favs != [] {
      CountZero(favs[1..], id);
      if HasId(favs[1..], id) {
        var j :| 0 <= j < |favs[1..]| && favs[1..][j].id == id;
        assert favs[j + 1].id == id;
      }
      if HasId(favs, id) && favs[0].id != id {
        var j :| 0 <= j < |favs| && favs[j].id == id;
        assert favs[1..][j - 1].id == id;
      }
    }
  }

  /**
   * A toggle adds one occurrence of `id` when there was none and removes one
   * otherwise; the occurrences of every other id are unchanged.
   */
  lemma ToggleCounts(favs: seq<Favorite>, id: string, item: ItemData, other: string)
    requires other != id
    ensures Count(Toggled(favs, id, item), id) == if Count(favs, id) == 0 then 1 else Count(favs, id) - 1
    ensures Count(Toggled(favs, id, item), other) == Count(favs, other)
  {
    CountZero(favs, id);
    var index := IndexOf(favs, id);
    var added := [NewFavorite(id, item)];
    if index == -1 {
      CountAppend(favs, added, id);
      CountAppend(favs, added, other);
    } else {
      var head, tail := favs[..index], favs[index + 1..];
      assert favs == head + favs[index..index + 1] + tail;
      CountAppend(head, favs[index..index + 1], id);
      CountAppend(head + favs[index..index + 1], tail, id);
      CountAppend(head, tail, id);
      CountAppend(head, favs[index..index + 1], other);
      CountAppend(head + favs[index..index + 1], tail, other);
      CountAppend(head, tail, other);
    }
  }

  /** The length changes by exactly one per toggle: up when `id` was absent, down when it was present. */
  lemma ToggleLength(favs: seq<Favorite>, id: string, item: ItemData)
    ensures HasId(favs, id) ==> |Toggled(favs, id, item)| == |favs| - 1
    ensures !HasId(favs, id) ==> |Toggled(favs, id, item)| == |favs| + 1
  {
  }

  /** No two entries carry the same id. */
  predicate UniqueIds(favs: seq<Favorite>) {
    forall i, j :: 0 <= i < j < |favs| ==> favs[i].id != favs[j].id
  }

  /** On a list without duplicate ids, a toggle keeps ids unique and flips whether `id` is present. */
  lemma ToggleKeepsUniqueAndFlips(favs: seq<Favorite>, id: string, item: ItemData)
    requires UniqueIds(favs)
    ensures UniqueIds(Toggled(favs, id, item))
    ensures HasId(Toggled(favs, id, item), id) <==> !HasId(favs, id)
  {
    var r := Toggled(favs, id, item);
    var index := IndexOf(favs, id);
    if index == -1 {
      assert r == favs + [NewFavorite(id, item)];
      assert r[|favs|].id == id;
    } else {
      ToggleRemovesFirstMatch(favs, id, item, index);
      forall i, j | 0 <= i < j < |r|
        ensures r[i].id != r[j].id
      {
        var i' := if i < index then i else i + 1;
        var j' := if j < index then j else j + 1;
        assert r[i] == favs[i'] && r[j] == favs[j'];
      }
      forall j | 0 <= j < |r|
        ensures r[j].id != id
      {
        var j' := if j < index then j else j + 1;
        assert r[j] == favs[j'] && j' != index;
      }
    }
  }

  /** Toggling an absent id twice gives back the list as it was. */
  lemma ToggleTwiceRestores(favs: seq<Favorite>, id: string, item1: ItemData, item2: ItemData)
    requires !HasId(favs, id)
    ensures Toggled(Toggled(favs, id, item1), id, item2) == favs
  {
    var once := Toggled(favs, id, item1);
    assert once == favs + [NewFavorite(id, item1)];
    assert IsFirstWithId(once, id, |favs|);
    assert IndexOf(once, id) == |favs|;
    assert once[..|favs|] == favs;
  }
}
