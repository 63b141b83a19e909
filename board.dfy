/**
 * The `board` of a score board: a JavaScript `Map` from match key to match.
 * A `Map` remembers insertion order, so the board is a sequence of entries
 * rather than a Dafny `map`: `set` on a present key replaces the entry where
 * it stands, `set` on a new key appends, `delete` removes the entry.
 */
module Board {
  import opened Wrappers

  /** A live match. `createdAt` is the clock reading taken when it started. */
  datatype Match = Match(
    homeTeam: string,
    awayTeam: string,
    homeTeamScore: int,
    awayTeamScore: int,
    createdAt: int)

  /** One `[key, value]` pair of the board. */
  datatype Entry = Entry(key: string, game: Match)

  /**
   * The key a match is filed under: the home name, then " - ", then the away
   * name. Nothing marks where a name ends (see ScoreBoards.KeyCollision).
   */
  function MatchKey(homeTeam: string, awayTeam: string): string {
    homeTeam + " - " + awayTeam
  }

  /** A key is the home name, " - " and the away name, in that order. */
  lemma MatchKeyParts(homeTeam: string, awayTeam: string)
    ensures var k := MatchKey(homeTeam, awayTeam);
      && |k| == |homeTeam| + 3 + |awayTeam|
      && k[..|homeTeam|] == homeTeam
      && k[|homeTeam|..|homeTeam| + 3] == " - "
      && k[|homeTeam| + 3..] == awayTeam
  {
  }

  /** The goals of the match, both sides together. */
  function Total(m: Match): int {
    m.homeTeamScore + m.awayTeamScore
  }

  ghost predicate HasKey(b: seq<Entry>, k: string) {
    exists i :: 0 <= i < |b| && b[i].key == k
  }

  ghost predicate KeysUnique(b: seq<Entry>) {
    forall i, j :: 0 <= i < j < |b| ==> b[i].key != b[j].key
  }

  /**
   * What the score board keeps true of its board: one entry per key, every
   * entry filed under the key of its own two team names, both names non-empty.
   */
  ghost predicate WellFormed(b: seq<Entry>) {
    && KeysUnique(b)
    && forall i :: 0 <= i < |b| ==>
         && b[i].key == MatchKey(b[i].game.homeTeam, b[i].game.awayTeam)
         && b[i].game.homeTeam != ""
         && b[i].game.awayTeam != ""
  }

  /** The position of the first entry with key k, if any. */
  function IndexOf(b: seq<Entry>, k: string): (r: Option<nat>)
    ensures r.Some? ==> r.value < |b| && b[r.value].key == k
    ensures r.Some? ==> forall i :: 0 <= i < r.value ==> b[i].key != k
    ensures r.None? <==> !HasKey(b, k)
  {
    if b == [] then None
    else if b[0].key == k then Some(0)
    else match IndexOf(b[1..], k)
      case None => None
      case Some(i) => Some(i + 1)
  }

  /** `Map.prototype.get`: the match filed under k, if any. */
  function Get(b: seq<Entry>, k: string): (r: Option<Match>)
    ensures r.Some? <==> HasKey(b, k)
    ensures r.Some? ==> exists i :: 0 <= i < |b| && b[i] == Entry(k, r.value)
  {
    match IndexOf(b, k)
    case None => None
    case Some(i) => Some(b[i].game)
  }

  /**
   * `Map.prototype.set`: file m under k. A present key keeps its position,
   * a new key goes to the end; nothing else moves or changes.
   */
  function Set(b: seq<Entry>, k: string, m: Match): (r: seq<Entry>)
    ensures |r| == if HasKey(b, k) then |b| else |b| + 1
    ensures forall i :: 0 <= i < |b| ==> r[i].key == b[i].key
    ensures forall i :: 0 <= i < |b| && b[i].key != k ==> r[i] == b[i]
    ensures !HasKey(b, k) ==> r[|b|] == Entry(k, m)
    ensures Get(r, k) == Some(m)
  {
    match IndexOf(b, k)
    case None => b + [Entry(k, m)]
    case Some(i) => b[i := Entry(k, m)]
  }

  /** `Map.prototype.delete`: drop the entry filed under k, if any. */
  function Delete(b: seq<Entry>, k: string): (r: seq<Entry>)
    ensures |r| == if HasKey(b, k) then |b| - 1 else |b|
    ensures !HasKey(b, k) ==> r == b
    ensures KeysUnique(b) ==> !HasKey(r, k)
  {
    match IndexOf(b, k)
    case None => b
    case Some(i) => b[..i] + b[i + 1..]
  }

  /** Reference definition: every entry not filed under k, in board order. */
  function Without(b: seq<Entry>, k: string): seq<Entry> {
    if b == [] then []
    else (if b[0].key == k then [] else [b[0]]) + Without(b[1..], k)
  }

  /** Under unique keys, an entry at position i is what `get` finds. */
  lemma {:induction false} GetAt(b: seq<Entry>, i: int)
    requires KeysUnique(b) && 0 <= i < |b|
    ensures Get(b, b[i].key) == Some(b[i].game)
  {
    var j := IndexOf(b, b[i].key).value;
    assert !(j < i) && !(i < j);
  }

  /** Setting one key leaves what every other key finds untouched. */
  lemma {:induction false} SetGetOther(b: seq<Entry>, k: string, m: Match, k': string)
    requires k' != k
    ensures Get(Set(b, k, m), k') == Get(b, k')
  {
    var r := Set(b, k, m);
    match IndexOf(b, k')
    case None =>
    case Some(j) =>
      assert r[j] == b[j];
      var j' := IndexOf(r, k').value;
      assert !(j' < j) && !(j < j');
  }

  /** Setting a match under its own key keeps the board well formed. */
  lemma {:induction false} SetPreservesWellFormed(b: seq<Entry>, k: string, m: Match)
    requires WellFormed(b)
    requires k == MatchKey(m.homeTeam, m.awayTeam) && m.homeTeam != "" && m.awayTeam != ""
    ensures WellFormed(Set(b, k, m))
  {
  }

  /** Without drops nothing from a board that lacks k. */
  lemma {:induction false} WithoutAbsent(b: seq<Entry>, k: string)
    requires !HasKey(b, k)
    ensures Without(b, k) == b
  {
    if b != [] {
      assert b[0].key != k;
      assert !HasKey(b[1..], k) by {
        forall i | 0 <= i < |b| - 1 ensures b[1..][i].key != k {
          assert b[1..][i] == b[i + 1];
        }
      }
      WithoutAbsent(b[1..], k);
      assert b == [b[0]] + b[1..];
    }
  }

  lemma {:induction false} WithoutConcat(a: seq<Entry>, c: seq<Entry>, k: string)
    ensures Without(a + c, k) == Without(a, k) + Without(c, k)
  {
    if a == [] {
      assert a + c == c;
    } else {
      assert (a + c)[1..] == a[1..] + c;
      WithoutConcat(a[1..], c, k);
    }
  }

  /**
   * Under unique keys, `delete` removes exactly the entry filed under k:
   * every other entry stays, with its value, in its relative order.
   */
  lemma {:induction false} DeleteIsWithout(b: seq<Entry>, k: string)
    requires KeysUnique(b)
    ensures Delete(b, k) == Without(b, k)
  {
    match IndexOf(b, k)
    case None =>
      WithoutAbsent(b, k);
    case Some(i) =>
      var head, tail := b[..i], b[i + 1..];
      var rest := [b[i]] + tail;
      assert b == head + rest;
      WithoutConcat(head, rest, k);
      WithoutConcat([b[i]], tail, k);
      assert Without([b[i]], k) == [] by {
        assert [b[i]][1..] == [];
      }
      WithoutAbsent(head, k);
      assert !HasKey(tail, k) by {
        forall j | 0 <= j < |tail| ensures tail[j].key != k {
          assert tail[j] == b[i + 1 + j];
        }
      }
      WithoutAbsent(tail, k);
      assert Without(rest, k) == [] + tail;
      assert [] + tail == tail;
  }

  /** `get` on a board with e in front. */
  lemma {:induction false} GetCons(e: Entry, s: seq<Entry>, k: string)
    ensures Get([e] + s, k) == if e.key == k then Some(e.game) else Get(s, k)
  {
    assert ([e] + s)[0] == e && ([e] + s)[1..] == s;
  }

  /** Dropping the entries of one key leaves what every other key finds untouched. */
  lemma {:induction false} WithoutGetOther(b: seq<Entry>, k: string, k': string)
    requires k' != k
    ensures Get(Without(b, k), k') == Get(b, k')
  {
    if b != [] {
      WithoutGetOther(b[1..], k, k');
      GetCons(b[0], b[1..], k');
      assert b == [b[0]] + b[1..];
      if b[0].key == k {
        assert Without(b, k) == [] + Without(b[1..], k) == Without(b[1..], k);
      } else {
        GetCons(b[0], Without(b[1..], k), k');
      }
    }
  }

  /** Deleting one key leaves what every other key finds untouched. */
  lemma DeleteGetOther(b: seq<Entry>, k: string, k': string)
    requires KeysUnique(b) && k' != k
    ensures Get(Delete(b, k), k') == Get(b, k')
  {
    DeleteIsWithout(b, k);
    WithoutGetOther(b, k, k');
  }

  /**
   * Deleting a key and setting it again files it last: it no longer stands
   * where it stood before, but behind every other entry.
   */
  lemma {:induction false} DeleteThenSet(b: seq<Entry>, k: string, m: Match)
    requires KeysUnique(b)
    ensures Set(Delete(b, k), k, m) == Without(b, k) + [Entry(k, m)]
  {
    var d := Delete(b, k);
    DeleteIsWithout(b, k);
    assert !HasKey(d, k);
    var r := Set(d, k, m);
    assert |r| == |d| + 1;
    forall i | 0 <= i < |d| ensures r[i] == d[i] {
      assert d[i].key != k;
    }
    assert r == d + [Entry(k, m)];
  }

  /** Deleting an entry keeps the board well formed. */
  lemma {:induction false} DeletePreservesWellFormed(b: seq<Entry>, k: string)
    requires WellFormed(b)
    ensures WellFormed(Delete(b, k))
  {
    match IndexOf(b, k)
    case None =>
    case Some(i) =>
      var r := Delete(b, k);
      assert forall j :: 0 <= j < |r| ==> r[j] == if j < i then b[j] else b[j + 1];
  }
}
