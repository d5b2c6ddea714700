/**
 * The `Game` entity of myning/objects/game.py: a singleton whose only state is
 * `_state`, stored under the fixed key "game" as `{"state": _state}`.
 *
 * `GameState` is an `int` enum, so it is written to JSON as a number and read
 * back as that number; `from_dict` stores whatever the payload holds under
 * "state", which is why the state here is a `JValue`.
 */
module Games {
  import opened Wrappers
  import opened Json
  import opened Objects
  import opened Paths
  import opened Singleton
  import opened FileManager

  const TUTORIAL: JValue := JNum(1)
  const READY: JValue := JNum(2)

  /** `Game.file_name`, also the key `initialize` loads. */
  const FILE_NAME := "game"

  const GAME: TypeId := "Game"

  /** `from_dict` indexes the payload with "state": a `KeyError` without it, a `TypeError` when it is no mapping. */
  datatype GameError = MissingState | NotAMapping

  /** `to_dict()` of a game in the given state. */
  function ToDict(state: JValue): (d: JValue)
    ensures d.JObj? && d.fields.Keys == {"state"} && d.fields["state"] == state
  {
    JObj(map["state" := state])
  }

  /** The `_state` of `Game.from_dict(d)`: the payload's "state", with no default. */
  function FromDict(d: JValue): (r: Result<JValue, GameError>)
    ensures r.Ok? <==> d.JObj? && "state" in d.fields
    ensures r.Ok? ==> r.value == d.fields["state"]
    ensures d.JObj? && "state" !in d.fields ==> r == Err(MissingState)
  {
    match d
    case JObj(fields) => if "state" in fields then Ok(fields["state"]) else Err(MissingState)
    case _ => Err(NotAMapping)
  }

  lemma RoundTrip(state: JValue)
    ensures FromDict(ToDict(state)) == Ok(state)
  {
  }

  /** What becomes the registered game. */
  datatype Source =
    | FromPayload(state: JValue)   // `from_dict` of the stored record
    | Created                      // `cls._create()`: a fresh game
    | Existing                     // `Game()`: whatever is registered already

  datatype InitError =
    | StoreFailed(storeError: StoreError)
    | BadPayload(gameError: GameError)
    | NotRegistered(registryError: RegistryError)

  /**
   * `initialize()` given what `load(Game, "game")` found, with the empty legacy
   * file read as a fresh game: no record and an empty file both give a fresh
   * game, a record gives `from_dict` of it, and errors propagate.
   */
  function Plan(l: Result<Loaded, StoreError>): (r: Result<Source, InitError>)
    ensures r.Ok? ==> !r.value.Existing?
    ensures r.Err? ==> !r.error.NotRegistered?
    ensures l.Ok? && !l.value.Payload? ==> r == Ok(Created)
    ensures l.Err? ==> r == Err(StoreFailed(l.error))
    // a stored record gives `from_dict` of it, or the error `from_dict` raises
    ensures l.Ok? && l.value.Payload? && FromDict(l.value.dict).Ok? ==>
              r == Ok(FromPayload(l.value.dict.fields["state"]))
    ensures l.Ok? && l.value.Payload? && FromDict(l.value.dict).Err? ==>
              r == Err(BadPayload(FromDict(l.value.dict).error))
  {
    match l
    case Err(e) => Err(StoreFailed(e))
    case Ok(Absent) => Ok(Created)
    case Ok(DefaultInstance) => Ok(Created)
    case Ok(Payload(d)) =>
      match FromDict(d)
      case Ok(s) => Ok(FromPayload(s))
      case Err(e) => Err(BadPayload(e))
  }

  /**
   * `initialize()` as written: for an empty legacy file `load` returns
   * `type()`, which for a singleton class is `Game()`, the registry call; before
   * the game is registered that raises `RuntimeError`.
   */
  function PlanAsWritten(l: Result<Loaded, StoreError>, registered: bool): (r: Result<Source, InitError>)
    ensures l != Ok(DefaultInstance) ==> r == Plan(l)
    ensures l == Ok(DefaultInstance) ==>
              r == if registered then Ok(Existing) else Err(NotRegistered(NotInitialized(GAME)))
  {
    match l
    case Ok(DefaultInstance) =>
      if registered then Ok(Existing) else Err(NotRegistered(NotInitialized(GAME)))
    case _ => Plan(l)
  }

  /** A legacy store whose `game.json` exists but is empty. */
  const EMPTY_GAME_FILE := Disk({DATA, ITEMS_DIR, ENTITIES_DIR}, map[".data/game.json" := ""], false, false, map[])

  /**
   * The discrepancy: at startup (nothing registered yet) an empty legacy
   * `game.json` makes `initialize` as written fail, where the default instance
   * was meant.
   */
  lemma EmptyGameFileBreaksInitialize(c: Codec)
    ensures WellFormed(EMPTY_GAME_FILE)
    ensures LoadDisk(EMPTY_GAME_FILE, c, FILE_NAME, "") == Ok(DefaultInstance)
    ensures PlanAsWritten(LoadDisk(EMPTY_GAME_FILE, c, FILE_NAME, ""), false)
            == Err(NotRegistered(NotInitialized(GAME)))
    ensures Plan(LoadDisk(EMPTY_GAME_FILE, c, FILE_NAME, "")) == Ok(Created)
  {
    JoinSplits(DATA, "game.json");
    assert DATA + "/" + "game.json" == LegacyPath(FILE_NAME) == ".data/game.json";
    assert EMPTY_GAME_FILE.files.Keys == {".data/game.json"};
  }

  /** A game that was saved is the game `initialize` restores, on either backend. */
  lemma SavedGameIsRestored(d: Disk, c: Codec, state: JValue)
    requires Lawful(c)
    requires SaveDisk(d, c, Entity(FILE_NAME, ToDict(state))).outcome == Done
    ensures Plan(LoadDisk(SaveDisk(d, c, Entity(FILE_NAME, ToDict(state))).disk, c, FILE_NAME, ""))
            == Ok(FromPayload(state))
  {
    SaveThenLoad(d, c, Entity(FILE_NAME, ToDict(state)), "", FILE_NAME);
  }

  class Game {
    /** `_state`. */
    var state: JValue

    /** `Game._create()`: a new game in the class default state; the registry is not involved. */
    constructor Create()
      ensures state == TUTORIAL
    {
      state := TUTORIAL;
    }

    /** The `state` property. */
    function State(): JValue
      reads this
    {
      state
    }

    /** The `state` setter. */
    method SetState(value: JValue)
      modifies this
      ensures State() == value
    {
      state := value;
    }

    /** What the store sees: `file_name` and `to_dict()`. */
    function AsEntity(): (e: Entity)
      reads this
      ensures e.fileName == FILE_NAME && FromDict(e.dict) == Ok(State())
    {
      Entity(FILE_NAME, ToDict(state))
    }

    /** `Game.from_dict(d)`: a new game holding the payload's "state". */
    static method FromDictNew(d: JValue) returns (r: Result<Game, GameError>)
      ensures FromDict(d).Err? ==> r == Err(FromDict(d).error)
      ensures FromDict(d).Ok? ==> r.Ok? && fresh(r.value) && r.value.state == FromDict(d).value
    {
      var s := FromDict(d);
      if s.Err? {
        return Err(s.error);
      }
      var game := new Game.Create();
      game.state := s.value;
      r := Ok(game);
    }

    /**
     * `Game.initialize()`, reading an empty legacy file as a fresh game: load
     * "game" or create a new game, then register it.
     */
    static method Initialize(fm: FileManager, reg: Registry) returns (r: Result<Game, InitError>)
      requires fm.Valid()
      modifies reg
      ensures var plan := Plan(LoadDisk(fm.Root(), fm.json, FILE_NAME, ""));
              && (plan.Err? ==> r == Err(plan.error) && reg.instances == old(reg.instances))
              && (plan.Ok? ==>
                    && r.Ok? && fresh(r.value)
                    && reg.instances == old(reg.instances)[GAME := r.value]
                    && r.value.state == (if plan.value.FromPayload? then plan.value.state else TUTORIAL))
    {
      var loaded := fm.Load(FILE_NAME, "");
      if loaded.Err? {
        return Err(StoreFailed(loaded.error));
      }
      var game: Game;
      if loaded.value.Payload? {
        var g := FromDictNew(loaded.value.dict);
        if g.Err? {
          return Err(BadPayload(g.error));
        }
        game := g.value;
      } else {
        game := new Game.Create();
      }
      reg.SetInstance(GAME, game);
      r := Ok(game);
    }

    /** `Game.initialize()` as written, where an empty legacy file means `Game()`. */
    static method InitializeAsWritten(fm: FileManager, reg: Registry) returns (r: Result<object, InitError>)
      requires fm.Valid()
      modifies reg
      ensures var plan := PlanAsWritten(LoadDisk(fm.Root(), fm.json, FILE_NAME, ""), GAME in old(reg.instances));
              && (plan.Err? ==> r == Err(plan.error) && reg.instances == old(reg.instances))
              && (plan == Ok(Existing) ==> r == Ok(old(reg.instances)[GAME]) && reg.instances == old(reg.instances))
              && (plan.Ok? && !plan.value.Existing? ==>
                    r.Ok? && fresh(r.value) && reg.instances == old(reg.instances)[GAME := r.value])
    {
      var loaded := fm.Load(FILE_NAME, "");
      if loaded.Err? {
        return Err(StoreFailed(loaded.error));
      }
      var game: object;
      if loaded.value.Payload? {
        var g := FromDictNew(loaded.value.dict);
        if g.Err? {
          return Err(BadPayload(g.error));
        }
        game := g.value;
      } else if loaded.value.DefaultInstance? {
        var existing := reg.Call(GAME);
        if existing.Err? {
          return Err(NotRegistered(existing.error));
        }
        game := existing.value;
      } else {
        game := new Game.Create();
      }
      reg.SetInstance(GAME, game);
      r := Ok(game);
    }
  }
}
