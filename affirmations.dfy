/**
 * screens/Affirmations.tsx: the favourites list, the featured affirmation and
 * the favourites-first display order.  The affirmation list is a parameter:
 * the user document declares no such field, and the record's shape is the one
 * the screen reads (`id`, `text`, `isFavorite`).
 */
module Affirmations {
  import opened Types
  import opened Text

  datatype Affirmation = Affirmation(id: string, text: string, isFavorite: bool)

  /** `filter(a => a.isFavorite)`, and its complement. */
  function Favorites(affs: seq<Affirmation>): (r: seq<Affirmation>)
    ensures |r| <= |affs|
  {
    if |affs| == 0 then []
    else if affs[0].isFavorite then [affs[0]] + Favorites(affs[1..])
    else Favorites(affs[1..])
  }

  function Others(affs: seq<Affirmation>): (r: seq<Affirmation>)
    ensures |r| <= |affs|
  {
    if |affs| == 0 then []
    else if affs[0].isFavorite then Others(affs[1..])
    else [affs[0]] + Others(affs[1..])
  }

  /** The favourites are the favourite affirmations, the others the rest. */
  lemma {:induction false} FilterMembers(affs: seq<Affirmation>)
    ensures forall a :: a in Favorites(affs) <==> a in affs && a.isFavorite
    ensures forall a :: a in Others(affs) <==> a in affs && !a.isFavorite
  {
    if |affs| > 0 {
      FilterMembers(affs[1..]);
      assert affs == [affs[0]] + affs[1..];
    }
  }

  /** The sort comparator: a favourite before a non-favourite, otherwise a tie. */
  function Compare(a: Affirmation, b: Affirmation): (c: int)
    ensures c < 0 <==> a.isFavorite && !b.isFavorite
    ensures c > 0 <==> !a.isFavorite && b.isFavorite
  {
    if a.isFavorite && !b.isFavorite then -1
    else if !a.isFavorite && b.isFavorite then 1
    else 0
  }

  /**
   * Stable insertion of `x` in front of `ys`, where `x` came before every
   * element of `ys`: it passes only the elements that sort strictly before it.
   */
  function Insert(x: Affirmation, ys: seq<Affirmation>): seq<Affirmation>
  {
    if |ys| == 0 then [x]
    else if Compare(ys[0], x) < 0 then [ys[0]] + Insert(x, ys[1..])
    else [x] + ys
  }

  /** `[...affirmations].sort(Compare)`: a stable sort, as the standard requires. */
  function SortAffirmations(affs: seq<Affirmation>): seq<Affirmation>
  {
    if |affs| == 0 then [] else Insert(affs[0], SortAffirmations(affs[1..]))
  }

  lemma {:induction false} InsertOther(x: Affirmation, favs: seq<Affirmation>, others: seq<Affirmation>)
    requires !x.isFavorite
    requires forall i :: 0 <= i < |favs| ==> favs[i].isFavorite
    requires forall i :: 0 <= i < |others| ==> !others[i].isFavorite
    ensures Insert(x, favs + others) == favs + [x] + others
  {
    if |favs| > 0 {
      assert (favs + others)[1..] == favs[1..] + others;
      InsertOther(x, favs[1..], others);
    } else {
      assert favs + others == others;
    }
  }

  lemma FavoritesAreFavorite(affs: seq<Affirmation>)
    ensures forall i :: 0 <= i < |Favorites(affs)| ==> Favorites(affs)[i].isFavorite
    ensures forall i :: 0 <= i < |Others(affs)| ==> !Others(affs)[i].isFavorite
  {
    var f := Favorites(affs);
    var o := Others(affs);
    FilterMembers(affs);
    forall i | 0 <= i < |f| ensures f[i].isFavorite {
      assert f[i] in f;
    }
    forall i | 0 <= i < |o| ensures !o[i].isFavorite {
      assert o[i] in o;
    }
  }

  /**
   * The display order is the favourites in their own order followed by the
   * others in theirs: favourites first, and the order within each group kept.
   */
  lemma {:induction false} SortIsFavoritesThenOthers(affs: seq<Affirmation>)
    ensures SortAffirmations(affs) == Favorites(affs) + Others(affs)
  {
    if |affs| > 0 {
      SortIsFavoritesThenOthers(affs[1..]);
      if affs[0].isFavorite {
        SortConsFavorite(affs);
      } else {
        SortConsOther(affs);
      }
    }
  }

  lemma SortConsFavorite(affs: seq<Affirmation>)
    requires |affs| > 0 && affs[0].isFavorite
    requires SortAffirmations(affs[1..]) == Favorites(affs[1..]) + Others(affs[1..])
    ensures SortAffirmations(affs) == Favorites(affs) + Others(affs)
  {
    var rest := affs[1..];
    InsertFavorite(affs[0], Favorites(rest) + Others(rest));
  }

  lemma SortConsOther(affs: seq<Affirmation>)
    requires |affs| > 0 && !affs[0].isFavorite
    requires SortAffirmations(affs[1..]) == Favorites(affs[1..]) + Others(affs[1..])
    ensures SortAffirmations(affs) == Favorites(affs) + Others(affs)
  {
    var x, rest := affs[0], affs[1..];
    var favs, others := Favorites(rest), Others(rest);
    assert Favorites(affs) == favs;
    assert Others(affs) == [x] + others;
    assert SortAffirmations(affs) == Insert(x, favs + others);
    assert Insert(x, favs + others) == favs + [x] + others by {
      FavoritesAreFavorite(rest);
      InsertOther(x, favs, others);
    }
    AppendAssoc(favs, [x], others);
  }

  lemma InsertFavorite(x: Affirmation, ys: seq<Affirmation>)
    requires x.isFavorite
    ensures Insert(x, ys) == [x] + ys
  {
  }

  lemma {:induction false} SplitIsPermutation(affs: seq<Affirmation>)
    ensures multiset(Favorites(affs) + Others(affs)) == multiset(affs)
  {
    if |affs| > 0 {
      var x, rest := affs[0], affs[1..];
      SplitIsPermutation(rest);
      assert multiset(affs) == multiset([x]) + multiset(rest) by {
        assert affs == [x] + rest;
      }
      if x.isFavorite {
        assert Favorites(affs) == [x] + Favorites(rest) && Others(affs) == Others(rest);
      } else {
        assert Favorites(affs) == Favorites(rest) && Others(affs) == [x] + Others(rest);
      }
    }
  }

  /** The sorted list holds exactly the affirmations, each as often as before. */
  lemma SortIsPermutation(affs: seq<Affirmation>)
    ensures multiset(SortAffirmations(affs)) == multiset(affs)
    ensures |SortAffirmations(affs)| == |affs|
  {
    SortIsFavoritesThenOthers(affs);
    SplitIsPermutation(affs);
    assert |multiset(SortAffirmations(affs))| == |multiset(affs)|;
  }

  /** No non-favourite is shown before a favourite. */
  lemma SortFavoritesFirst(affs: seq<Affirmation>, i: int, j: int)
    requires 0 <= i < j < |SortAffirmations(affs)|
    requires SortAffirmations(affs)[j].isFavorite
    ensures SortAffirmations(affs)[i].isFavorite
  {
    SortIsFavoritesThenOthers(affs);
    FavoritesAreFavorite(affs);
    var f := Favorites(affs);
    assert SortAffirmations(affs)[i] == f[i];
  }

  /**
   * The featured affirmation: a random favourite when there is one, else a
   * random affirmation, else none.  `r` is the value of `Math.random()`.
   */
  function Featured(affs: seq<Affirmation>, r: real): (f: Option<Affirmation>)
    requires 0.0 <= r < 1.0
    ensures f.None? <==> |affs| == 0
    ensures f.Some? ==> f.value in affs
    ensures |Favorites(affs)| > 0 ==> f.Some? && f.value.isFavorite
  {
    var favs := Favorites(affs);
    FilterMembers(affs);
    if |favs| > 0 then
      Some(favs[RandomIndex(r, |favs|)])
    else if |affs| > 0 then
      Some(affs[RandomIndex(r, |affs|)])
    else
      None
  }

  /** `Math.floor(r * n)` for `0 <= r < 1`: an index below `n`. */
  function RandomIndex(r: real, n: nat): (i: nat)
    requires 0.0 <= r < 1.0 && n > 0
    ensures i < n
  {
    var x := r * n as real;
    assert 0.0 <= x < n as real;
    x.Floor
  }

  /** There is a favourite exactly when some affirmation is one. */
  lemma FavoritesNonEmpty(affs: seq<Affirmation>)
    ensures |Favorites(affs)| > 0 <==> exists a :: a in affs && a.isFavorite
  {
    FilterMembers(affs);
    if |Favorites(affs)| > 0 {
      assert Favorites(affs)[0] in Favorites(affs);
    }
  }

  /**
   * `handleAddAffirmation`: blank text is dropped and the input kept;
   * otherwise the text is handed to `addAffirmation` and the input cleared.
   */
  function HandleAdd(input: string): (r: (Option<string>, string))
    ensures IsBlank(input) <==> r.0.None?
    ensures r.0.None? ==> r.1 == input
    ensures r.0.Some? ==> r.0.value == input && r.1 == ""
  {
    if IsBlank(input) then (None, input) else (Some(input), "")
  }
}
