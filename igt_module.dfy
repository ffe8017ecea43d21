/**
 * The in-game-time aggregator: one switch over the selected game that asks
 * that game's splitter for its in-game time, or answers -1 ("unknown").
 */
module IgtModule {
  import opened Wrappers
  import opened Games

  class Igt {
    var gameSelect: int
    /** The games whose splitter reference has been set; unset references are null. */
    var linked: set<Game>

    constructor ()
      ensures gameSelect == NoneIndex && linked == {}
    {
      gameSelect := NoneIndex;
      linked := {};
    }

    /**
     * The selected game's in-game time. A reading through a null reference
     * throws, like a reading the splitter itself fails: both are `Fault`.
     */
    function ReturnCurrentIGT(t: Telemetry): (r: IgtRead)
      reads this
      ensures GameOf(gameSelect).None? ==> r == Ms(-1)
      ensures GameOf(gameSelect).Some? && !HasIgtProvider(GameOf(gameSelect).value) ==> r == Ms(-1)
      ensures GameOf(gameSelect).Some? && HasIgtProvider(GameOf(gameSelect).value) ==>
                r == (if GameOf(gameSelect).value in linked then t.igt(GameOf(gameSelect).value) else Fault)
    {
      match GameOf(gameSelect)
      case Some(Sekiro) => Read(Sekiro, t)
      case Some(Ds1) => Read(Ds1, t)
      case Some(Ds3) => Read(Ds3, t)
      case Some(Elden) => Read(Elden, t)
      case Some(Celeste) => Read(Celeste, t)
      case Some(Cuphead) => Read(Cuphead, t)
      case Some(Ds2) => Ms(-1)
      case Some(Hollow) => Ms(-1)
      case Some(Dishonored) => Ms(-1)
      case None => Ms(-1)
    }

    function Read(g: Game, t: Telemetry): IgtRead
      reads this
    {
      if g in linked then t.igt(g) else Fault
    }

    /** Stores the six splitter references; `true` means a non-null reference was passed. */
    method SetSplitterPointers(sekiro: bool, elden: bool, ds3: bool, celeste: bool, cuphead: bool, ds1: bool)
      modifies this`linked
      ensures forall g :: g in linked <==>
        (g == Sekiro && sekiro) || (g == Elden && elden) || (g == Ds3 && ds3) ||
        (g == Celeste && celeste) || (g == Cuphead && cuphead) || (g == Ds1 && ds1)
    {
      linked := (if sekiro then {Sekiro} else {}) + (if elden then {Elden} else {})
              + (if ds3 then {Ds3} else {}) + (if ds1 then {Ds1} else {})
              + (if celeste then {Celeste} else {}) + (if cuphead then {Cuphead} else {});
    }
  }

  /** The reading depends only on the selected game's own provider value. */
  lemma ReadingIsLocal(m: Igt, t1: Telemetry, t2: Telemetry)
    requires GameOf(m.gameSelect).Some? ==> t1.igt(GameOf(m.gameSelect).value) == t2.igt(GameOf(m.gameSelect).value)
    ensures m.ReturnCurrentIGT(t1) == m.ReturnCurrentIGT(t2)
  {
  }
}
