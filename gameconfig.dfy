/** The constant configuration: the genre table and the initial state of a run. */
module GameConfig {
  import opened Wrappers
  import opened Json
  import opened Types

  /** `GENRES`, in table order: the domain of the per-turn rotation. */
  const Genres: seq<Genre> := [
    Genre("modern-disaster", "현대 재난 생존", "긴박하고 현실적인 톤, 실제 시민 생존 감정선 강조", "도심 정전, 지하철 고립, 제한된 식수와 전력"),
    Genre("apocalypse", "포스트 아포칼립스", "황량하고 거친 톤, 자원 희소/도덕적 딜레마", "폐허 도시, 약탈자, 방사능 구역, 자작 무기"),
    Genre("zombie", "좀비 아웃브레이크", "긴장/스텔스, 소음 관리, 감염 공포", "소리 유인, 안전가옥, 방호복, 해독제 소문"),
    Genre("desert", "사막 횡단 생존", "건조/극한 환경, 체력/수분 관리 강조", "오아시스 수색, 모래폭풍, 별자리로 방향 잡기"),
    Genre("island", "무인도 생존", "자급자족, 제작/사냥/채집 루프", "익사된 난파선, 구조 신호, 코코넛/어류/장작"),
    Genre("snow", "설원/빙하지대", "저체온/바람/시야 제한, 화기/텐트 관리", "눈보라, 얼음 크레바스, 흰out, 발자국 추적"),
    Genre("cave", "동굴 탐험 생존", "폐쇄공포/탐사, 로프/랜턴/산소 관리", "지하 강, 좁은 크랙, 표식 남기기, 박쥐"),
    Genre("sea-drift", "해양 표류", "염분/탈수/햇빛, 즉흥적인 담수화/낚시", "구명보트, 비상식량, 비 올때 수집, 상어"),
    Genre("space-station", "우주정거장 생존", "하드SF, 산소/전력/모듈 수리, 무중력", "누설 위치 탐색, 태양 플레어, 외벽 EVA"),
    Genre("cyberpunk", "사이버펑크 슬럼", "디스토피아/해킹/암시장, 네온 느와르", "의체 과부하, 데이터칩, 갱단 체인소우"),
    Genre("stealth", "스텔스 생존", "은신/도주 중심, 소리/시야/경로 설계", "수색대, 드론 회피, 통신 교란, 배수로"),
    Genre("space-sf", "우주SF 탐사 생존", "이국적 바이옴, 과학적 해결, 도구 제작", "외계 식물 샘플, 방사선 폭풍, 탐사 로버")
  ]

  const SwordName := "허름한 검"
  const BreadName := "빵 한 조각"

  /** `DEFAULT_INITIAL_STATE.items`. */
  const DefaultItems: seq<Item> := [
    Item(SwordName, 1, Weapon, Some(5), None),
    Item(BreadName, 1, Food, None, None)
  ]

  /**
   * `DEFAULT_INITIAL_STATE`, restricted to the modelled members, with
   * `highlights` as `{}`. The source object has no `highlights` member:
   * the first load adds `{}` to it, but a return to the start screen
   * installs it as is, leaving the member absent; the model writes that
   * absence as `{}` too.
   */
  const DefaultInitialState: GameState := GameState(
    "", "", false, 100, 10, 10, None, None, DefaultItems, 0, StatTriple(0, 0, 0), "", [], "",
    None, RandomRun, 0, 5, false, [], "", JObj([]))

  lemma GenreCount()
    ensures |Genres| == 12
  {
  }

  lemma GenreIdsNonEmpty()
    ensures forall i :: 0 <= i < |Genres| ==> Genres[i].id != ""
  {
  }

  lemma GenreIdsDistinct()
    ensures forall i, j :: 0 <= i < j < |Genres| ==> Genres[i].id != Genres[j].id
  {
  }

  /** Twelve genres with pairwise different, non-empty ids, so rotation is modulo 12 and an id names at most one genre. */
  lemma GenresWellFormed()
    ensures |Genres| == 12
    ensures forall i, j :: 0 <= i < j < |Genres| ==> Genres[i].id != Genres[j].id
    ensures forall i :: 0 <= i < |Genres| ==> Genres[i].id != ""
  {
    GenreCount();
    GenreIdsNonEmpty();
    GenreIdsDistinct();
  }

  /** The starting run: full stats, no turns, no terminal flag, a random genre still to roll, the ending guard armed. */
  lemma DefaultStateValues()
    ensures var s := DefaultInitialState;
      && s.hp == 100 && s.atk == 10 && s.mp == 10
      && s.survivalTurns == 0 && s.turnInRun == 0 && s.maxTurns == 5
      && !s.isGameOver && !s.isRunComplete
      && s.genreMode == RandomRun && s.selectedGenreId.None?
      && s.achievements == [] && s.ending == "" && s.hudNotes == []
      && s.equippedWeapon.None? && s.equippedArmor.None?
    ensures forall i :: 0 <= i < |DefaultItems| ==> DefaultItems[i].quantity == 1
    ensures forall i :: 0 <= i < |DefaultItems| ==> (DefaultItems[i].atkBonus.Some? <==> DefaultItems[i].name == SwordName)
    ensures DefaultItems[0].atkBonus == Some(5)
  {
  }
}
