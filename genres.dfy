/**
 * Genre selection: `getGenreById`, `pickRandomGenre` and the choice of
 * the active genre in `buildGenreDirectivesForPrompt` for each of the
 * three genre modes.
 */
module GenreSelect {
  import opened Wrappers
  import opened Types
  import opened GameConfig

  /** `findIndex` over a genre list by id; the same scan as `Inventory.IndexOf`, on genres and their ids. */
  function IndexOfId(gs: seq<Genre>, id: string): (r: int)
    ensures -1 <= r < |gs|
    ensures r == -1 <==> forall j :: 0 <= j < |gs| ==> gs[j].id != id
    ensures 0 <= r ==> gs[r].id == id && forall j :: 0 <= j < r ==> gs[j].id != id
  {
    if |gs| == 0 then -1
    else if gs[0].id == id then 0
    else
      var r := IndexOfId(gs[1..], id);
      if r == -1 then -1 else r + 1
  }

  /** `GENRES.findIndex(g => g.id === id)`. */
  function GenreIndex(id: string): int {
    IndexOfId(Genres, id)
  }

  /**
   * `getGenreById`: the table's genre with that id, or none; a missing id
   * matches nothing. Ids are unique, so the result is the only candidate.
   */
  function GenreById(id: Option<string>): (g: Option<Genre>)
    ensures g.Some? <==> id.Some? && exists j :: 0 <= j < |Genres| && Genres[j].id == id.value
    ensures g.Some? ==> g.value in Genres && g.value.id == id.value
  {
    if id.None? then None
    else
      var k := GenreIndex(id.value);
      if k >= 0 then Some(Genres[k]) else None
  }

  /** `pickRandomGenre`, the random draw `Math.floor(Math.random() * 12)` given as `roll`. */
  function PickGenre(roll: nat): (g: Genre)
    requires roll < |Genres|
    ensures g in Genres
  {
    Genres[roll]
  }

  function Max0(x: int): nat {
    if x < 0 then 0 else x
  }

  /** The rotation's starting index: that of the selected genre, or 0 when none is selected or the id is unknown. */
  function BaseIndex(id: Option<string>): (b: nat)
    ensures b < |Genres|
  {
    if id.None? || id.value == "" then 0 else Max0(GenreIndex(id.value))
  }

  /** The index `turn` steps after `base` (a negative turn counting as 0), wrapping over the 12 table entries. */
  function Rotate(base: nat, turn: int): (k: nat)
    ensures k < 12
  {
    (base + Max0(turn)) % 12
  }

  /** The genre index used in rotate-turn mode at turn `turn` of the run. */
  function RotateIndex(id: Option<string>, turn: int): (k: nat)
    ensures k < |Genres|
  {
    GenreCount();
    Rotate(BaseIndex(id), turn)
  }

  /** The active genre of `buildGenreDirectivesForPrompt`. */
  function ActiveGenre(mode: GenreMode, id: Option<string>, turn: int): Option<Genre> {
    match mode
    case Fixed => GenreById(id)
    case RandomRun => GenreById(id)
    case RotateTurn => Some(Genres[RotateIndex(id, turn)])
  }

  /** Every genre id names exactly one genre. */
  lemma GenreByIdOfTable(j: nat)
    requires j < |Genres|
    ensures GenreById(Some(Genres[j].id)) == Some(Genres[j])
  {
    GenreIdsDistinct();
    IndexOfDistinct(Genres, j);
  }

  /** In a list with pairwise different ids, looking up the id of entry `j` finds `j`. */
  lemma IndexOfDistinct(gs: seq<Genre>, j: nat)
    requires j < |gs|
    requires forall a, b :: 0 <= a < b < |gs| ==> gs[a].id != gs[b].id
    ensures IndexOfId(gs, gs[j].id) == j
  {
    var r := IndexOfId(gs, gs[j].id);
    assert r != -1 by {
      assert gs[j].id == gs[j].id;
    }
  }

  /** In the fixed and random-run modes the active genre is the selected one, whatever the turn; rotation always yields a genre. */
  lemma ActiveGenreByMode(mode: GenreMode, id: Option<string>, turn: int)
    ensures mode != RotateTurn ==> ActiveGenre(mode, id, turn) == GenreById(id)
    ensures mode == RotateTurn ==> ActiveGenre(mode, id, turn).Some? && ActiveGenre(mode, id, turn).value in Genres
  {
  }

  lemma ModSmall(x: nat)
    requires x < 12
    ensures x % 12 == x
  {
  }

  /** Within one pass over the table, rotation is plain addition. */
  lemma RotateWithin(base: nat, turn: nat)
    requires base + turn < 12
    ensures Rotate(base, turn) == base + turn
  {
    ModSmall(base + turn);
  }

  lemma ModSucc(x: nat)
    ensures (x + 1) % 12 == (x % 12 + 1) % 12
  {
  }

  /** Rotation moves one table entry forward per turn, wrapping from the last genre to the first. */
  lemma RotationStep(base: nat, turn: int)
    requires turn >= 0
    ensures Rotate(base, turn + 1) == (Rotate(base, turn) + 1) % 12
  {
    ModSucc(base + turn);
  }

  /** Rotation has period 12: after a full pass over the table the same genre comes back. */
  lemma {:induction false} RotationPeriod(base: nat, turn: int, k: nat)
    requires turn >= 0
    ensures Rotate(base, turn + k * 12) == Rotate(base, turn)
  {
    if k > 0 {
      RotationPeriod(base, turn, k - 1);
      var x: nat := base + turn + (k - 1) * 12;
      assert base + turn + k * 12 == x + 12;
      assert (x + 12) % 12 == x % 12;
    }
  }

  /** Turn 0 of a rotated run plays the selected genre; a negative turn counts as turn 0. */
  lemma RotationStartsAtSelection(id: string, turn: int)
    requires GenreIndex(id) >= 0 && turn <= 0
    ensures ActiveGenre(RotateTurn, Some(id), turn) == GenreById(Some(id))
  {
    GenreCount();
    GenreIdsNonEmpty();
    var k := GenreIndex(id);
    assert Genres[k].id == id;
    assert BaseIndex(Some(id)) == k;
    ModSmall(k);
    assert RotateIndex(Some(id), turn) == k;
  }

  /** An unknown or empty id rotates exactly as no selection does, starting at the first genre. */
  lemma UnknownIdRotatesFromStart(id: string, turn: int)
    requires GenreIndex(id) < 0 || id == ""
    ensures ActiveGenre(RotateTurn, Some(id), turn) == ActiveGenre(RotateTurn, None, turn)
    ensures RotateIndex(None, turn) == Rotate(0, turn)
  {
  }

  /** Rotating from the selected genre at table index `j` plays index `j + turn` while that stays inside the table. */
  lemma RotateFrom(id: string, turn: nat, j: nat)
    requires GenreIndex(id) == j && j + turn < 12
    ensures RotateIndex(Some(id), turn) == j + turn
  {
    GenreCount();
    GenreIdsNonEmpty();
    assert Genres[j].id == id;
    assert BaseIndex(Some(id)) == j;
    RotateWithin(j, turn);
  }
}
