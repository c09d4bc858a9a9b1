/** The favorites list: a sequence of movies kept in insertion order and keyed by `id`
    (src/mvrec_react_app.js, lines 16 and 76-86). */
module Favorites {
  import opened Movies

  /** `favorites.some(f => f.id === movieId)` */
  function IsFavorite(favs: seq<Movie>, id: int): (b: bool)
    ensures b <==> exists i :: 0 <= i < |favs| && favs[i].id == id
  {
    |favs| > 0 && (favs[0].id == id || IsFavorite(favs[1..], id))
  }

  /** `prev.find(f => f.id === id)`: the first entry with that id, if any. */
  function Find(favs: seq<Movie>, id: int): (r: Option<Movie>)
    ensures r.None? <==> forall i :: 0 <= i < |favs| ==> favs[i].id != id
    ensures r.Some? ==> exists i :: 0 <= i < |favs| && favs[i] == r.value && r.value.id == id &&
                                    forall j :: 0 <= j < i ==> favs[j].id != id
  {
    if |favs| == 0 then None
    else if favs[0].id == id then Some(favs[0])
    else
      var r := Find(favs[1..], id);
      if r.Some? then
        var i :| 0 <= i < |favs[1..]| && favs[1..][i] == r.value && r.value.id == id &&
                 forall j :: 0 <= j < i ==> favs[1..][j].id != id;
        assert favs[i + 1] == r.value;
        r
      else r
  }

  /** `prev.filter(f => f.id !== id)` */
  function RemoveId(favs: seq<Movie>, id: int): (r: seq<Movie>)
    ensures forall x {:trigger x in r} :: x in r <==> x in favs && x.id != id
    ensures |r| <= |favs|
  {
    if |favs| == 0 then []
    else if favs[0].id != id then [favs[0]] + RemoveId(favs[1..], id)
    else RemoveId(favs[1..], id)
  }

  /** No two entries share an id. */
  predicate UniqueIds(favs: seq<Movie>) {
    forall i, j :: 0 <= i < j < |favs| ==> favs[i].id != favs[j].id
  }

  /** The set of ids on the list. */
  function IdSet(favs: seq<Movie>): set<int> {
    set x | x in favs :: x.id
  }

  /** `toggleFavorite`: drop every entry with the movie's id if there is one,
      otherwise append the movie. */
  function Toggle(favs: seq<Movie>, m: Movie): (r: seq<Movie>)
    ensures !IsFavorite(favs, m.id) ==> r == favs + [m]
    ensures IsFavorite(favs, m.id) ==> r == RemoveId(favs, m.id)
    ensures IsFavorite(favs, m.id) ==> forall x :: x in r <==> x in favs && x.id != m.id
    ensures IsFavorite(r, m.id) <==> !IsFavorite(favs, m.id)
    ensures UniqueIds(favs) ==> UniqueIds(r)
  {
    RemoveIdKeepsUnique(favs, m.id);
    if Find(favs, m.id).Some? then RemoveId(favs, m.id)
    else assert (favs + [m])[|favs|] == m; favs + [m]
  }

  /** Filtering distributes over concatenation: the kept entries stay in their
      original relative order. */
  lemma {:induction false} RemoveIdAppend(xs: seq<Movie>, ys: seq<Movie>, id: int)
    ensures RemoveId(xs + ys, id) == RemoveId(xs, id) + RemoveId(ys, id)
  {
    if |xs| > 0 {
      var x, rest := xs[0], xs[1..];
      assert xs == [x] + rest;
      assert xs + ys == [x] + (rest + ys);
      RemoveIdCons(x, rest, id);
      RemoveIdCons(x, rest + ys, id);
      RemoveIdAppend(rest, ys, id);
    } else {
      assert xs + ys == ys;
    }
  }

  /** One unfolding of the filter on a list given as head and tail. */
  lemma RemoveIdCons(x: Movie, xs: seq<Movie>, id: int)
    ensures RemoveId([x] + xs, id) == (if x.id != id then [x] else []) + RemoveId(xs, id)
  {
    assert ([x] + xs)[0] == x && ([x] + xs)[1..] == xs;
  }

  /** Filtering out an id that is not on the list changes nothing. */
  lemma {:induction false} RemoveIdAbsent(xs: seq<Movie>, id: int)
    requires !IsFavorite(xs, id)
    ensures RemoveId(xs, id) == xs
  {
    if |xs| > 0 {
      RemoveIdAbsent(xs[1..], id);
      assert [xs[0]] + xs[1..] == xs;
    }
  }

  /** Filtering keeps the ids distinct. */
  lemma {:induction false} RemoveIdKeepsUnique(xs: seq<Movie>, id: int)
    ensures UniqueIds(xs) ==> UniqueIds(RemoveId(xs, id))
  {
    if |xs| > 0 && UniqueIds(xs) {
      var tail := xs[1..];
      assert UniqueIds(tail) by {
        forall i, j | 0 <= i < j < |tail| ensures tail[i].id != tail[j].id {
          assert tail[i] == xs[i + 1] && tail[j] == xs[j + 1];
        }
      }
      RemoveIdKeepsUnique(tail, id);
      if xs[0].id != id {
        var rest := RemoveId(tail, id);
        forall x | x in rest ensures x.id != xs[0].id {
          var k :| 0 <= k < |tail| && tail[k] == x;
          assert xs[k + 1] == x;
        }
        var r := [xs[0]] + rest;
        forall i, j | 0 <= i < j < |r| ensures r[i].id != r[j].id {
          if i == 0 {
            assert r[j] == rest[j - 1] && r[j] in rest;
          } else {
            assert r[i] == rest[i - 1] && r[j] == rest[j - 1];
          }
        }
      }
    }
  }

  /** Applies `toggleFavorite` once per movie, in order. */
  function ToggleAll(favs: seq<Movie>, ms: seq<Movie>): seq<Movie>
    decreases |ms|
  {
    if |ms| == 0 then favs else ToggleAll(Toggle(favs, ms[0]), ms[1..])
  }

  /** The list starts empty (`useState([])`), and no sequence of toggles ever puts two
      entries with the same id on it. */
  lemma {:induction false} TogglesNeverDuplicate(ms: seq<Movie>)
    ensures UniqueIds(ToggleAll([], ms))
  {
    TogglesKeepUnique([], ms);
  }

  lemma {:induction false} TogglesKeepUnique(favs: seq<Movie>, ms: seq<Movie>)
    requires UniqueIds(favs)
    ensures UniqueIds(ToggleAll(favs, ms))
    decreases |ms|
  {
    if |ms| > 0 {
      TogglesKeepUnique(Toggle(favs, ms[0]), ms[1..]);
    }
  }

  /** Toggling a movie that is not a favorite twice gives back exactly the same list. */
  lemma {:induction false} DoubleToggleAbsent(favs: seq<Movie>, m: Movie)
    requires !IsFavorite(favs, m.id)
    ensures Toggle(Toggle(favs, m), m) == favs
  {
    RemoveIdAppend(favs, [m], m.id);
    RemoveIdAbsent(favs, m.id);
    assert RemoveId([m], m.id) == [];
  }

  /** Toggling a favorite twice keeps the same set of ids, but the entry is now `m`
      itself and sits at the end, after every other entry in its old order. */
  lemma {:induction false} DoubleTogglePresent(favs: seq<Movie>, m: Movie)
    requires IsFavorite(favs, m.id)
    ensures Toggle(Toggle(favs, m), m) == RemoveId(favs, m.id) + [m]
    ensures IdSet(Toggle(Toggle(favs, m), m)) == IdSet(favs)
  {
    var r := Toggle(favs, m);
    assert r == RemoveId(favs, m.id) && !IsFavorite(r, m.id);
    assert Toggle(r, m) == r + [m];
    var i :| 0 <= i < |favs| && favs[i].id == m.id;
    assert favs[i] in favs;
    assert m.id in IdSet(favs);
    assert (r + [m])[|r|] == m;
    forall x | x in favs ensures x.id in IdSet(r + [m]) {
      if x.id != m.id {
        assert x in r;
        assert x in r + [m];
      } else {
        assert m in r + [m];
      }
    }
    forall x | x in r + [m] ensures x.id in IdSet(favs) {
      if x != m {
        assert x in r;
      }
    }
  }

  /** On a list without duplicate ids, toggling a favorite twice restores the list
      exactly when that favorite was the last entry and equal to `m`. */
  lemma {:induction false} DoubleTogglePresentRestores(favs: seq<Movie>, m: Movie)
    requires UniqueIds(favs) && IsFavorite(favs, m.id)
    ensures Toggle(Toggle(favs, m), m) == favs <==> favs[|favs| - 1] == m
  {
    DoubleTogglePresent(favs, m);
    if favs[|favs| - 1] == m {
      RemoveIdThenLast(favs, m);
    }
  }

  /** With distinct ids, filtering out the last entry's id and appending that entry
      gives back the list. */
  lemma {:induction false} RemoveIdThenLast(favs: seq<Movie>, m: Movie)
    requires UniqueIds(favs) && |favs| > 0 && favs[|favs| - 1] == m
    ensures RemoveId(favs, m.id) + [m] == favs
  {
    var n := |favs|;
    var front := favs[..n - 1];
    assert front + [m] == favs;
    assert !IsFavorite(front, m.id) by {
      forall i | 0 <= i < |front| ensures front[i].id != m.id {
        assert front[i] == favs[i];
      }
    }
    RemoveIdAppend(front, [m], m.id);
    RemoveIdAbsent(front, m.id);
    assert RemoveId([m], m.id) == [];
  }

  /** A concrete case: with `a` first and `b` second, toggling `a` twice moves it behind `b`. */
  lemma DoubleToggleMovesToEnd()
    ensures var a := Movie(1, "A", None, None);
            var b := Movie(2, "B", None, None);
            Toggle(Toggle([a, b], a), a) == [b, a] != [a, b]
  {
    var a := Movie(1, "A", None, None);
    var b := Movie(2, "B", None, None);
    DoubleTogglePresent([a, b], a);
    assert RemoveId([a, b], 1) == [b];
  }
}
