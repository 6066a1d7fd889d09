/** The game's state records, as the current hook reads and writes them. */
module Types {
  import opened Wrappers
  import opened Json

  datatype ItemType = Weapon | Food | Misc | Armor | Potion | Key | Book

  /** An inventory entry; `kind` is the record's `type`. */
  datatype Item = Item(name: string, quantity: int, kind: ItemType, atkBonus: Option<int>, defBonus: Option<int>)

  datatype GenreMode = Fixed | RandomRun | RotateTurn

  /** A genre; `title` is the record's `label`. */
  datatype Genre = Genre(id: string, title: string, systemStyle: string, promptSeed: string)

  /** `lastDelta`: the per-stat totals of the last turn, shown for a moment. */
  datatype StatTriple = StatTriple(hp: int, atk: int, mp: int)

  /**
   * The game state the reducer, the handlers and the run controller work on.
   * Presentation-only members (typing animation, loading flags, scene image,
   * image error, current music track) are not part of the model.
   */
  datatype GameState = GameState(
    story: string,
    userAction: string,
    isGameOver: bool,
    hp: int,
    atk: int,
    mp: int,
    equippedWeapon: Option<Item>,
    equippedArmor: Option<Item>,
    items: seq<Item>,
    survivalTurns: int,
    lastDelta: StatTriple,
    lastSurvivalTurn: string,
    hudNotes: seq<string>,
    recommendedAction: string,
    selectedGenreId: Option<string>,
    genreMode: GenreMode,
    turnInRun: int,
    maxTurns: int,
    isRunComplete: bool,
    achievements: seq<string>,
    ending: string,
    highlights: Json)
}
