/** The names the log uses for classes, phases and modes, read back; and which card ids stand for no card. */
module LogNames {
  import opened Prelude
  import opened Text
  import opened ArenaState

  /** A name written in any case and with spaces around it. */
  predicate Written(text: string, name: string) {
    Upper(Trim(text)) == name
  }

  // Classes.

  function HeroCardOf(class_: HeroClass): string {
    match class_
    case Warrior => "HERO_01"
    case Shaman => "HERO_02"
    case Rogue => "HERO_03"
    case Paladin => "HERO_04"
    case Hunter => "HERO_05"
    case Druid => "HERO_06"
    case Warlock => "HERO_07"
    case Mage => "HERO_08"
    case Priest => "HERO_09"
    case DemonHunter => "HERO_10"
    case DeathKnight => "HERO_11"
  }

  function NameOf(class_: HeroClass): string {
    match class_
    case Warrior => "WARRIOR"
    case Shaman => "SHAMAN"
    case Rogue => "ROGUE"
    case Paladin => "PALADIN"
    case Hunter => "HUNTER"
    case Druid => "DRUID"
    case Warlock => "WARLOCK"
    case Mage => "MAGE"
    case Priest => "PRIEST"
    case DemonHunter => "DEMONHUNTER"
    case DeathKnight => "DEATHKNIGHT"
  }

  /** A hero card is read as its class and no other text is. */
  lemma HeroCardIff(text: string, class_: HeroClass)
    ensures HeroClass.FromHeroCardId(text) == Some(class_) <==> Written(text, HeroCardOf(class_))
  {
    hide Trim, Upper;
  }

  /** The letters of a class name, without its spaces and dashes. */
  function Letters(text: string): string {
    Without(Upper(Trim(text)), {' ', '-'})
  }

  /** A class name is read as its class and no other text is. */
  lemma ClassNameIff(text: string, class_: HeroClass)
    ensures HeroClass.FromLog(text) == Some(class_) <==> Letters(text) == NameOf(class_)
  {
    hide Trim, Upper, Without;
  }

  lemma {:induction false} WithoutNothing(text: string, dropped: set<char>)
    requires forall c | c in dropped :: c !in text
    ensures Without(text, dropped) == text
  {
    if text != [] {
      assert text[0] in text;
      WithoutNothing(text[1..], dropped);
    }
  }

  /** A hero is read from its card or from its class name; the cards of two classes differ, and so do their names. */
  lemma HeroRead(class_: HeroClass, text: string)
    requires Written(text, HeroCardOf(class_)) || Written(text, NameOf(class_))
    ensures HeroClass.OfHeroCard(text) == Some(class_)
  {
    hide HeroClass.FromHeroCardId, HeroClass.FromLog, Trim, Upper;
    if Written(text, HeroCardOf(class_)) {
      HeroCardIff(text, class_);
    } else {
      forall other ensures HeroClass.FromHeroCardId(text) != Some(other) {
        HeroCardIff(text, other);
        assert HeroCardOf(other)[4] == '_' && (|NameOf(class_)| <= 4 || NameOf(class_)[4] != '_');
      }
      assert ' ' !in NameOf(class_) && '-' !in NameOf(class_);
      WithoutNothing(NameOf(class_), {' ', '-'});
      ClassNameIff(text, class_);
    }
  }

  // Phases.

  function ModeOf(phase: DraftPhase): string
    requires !phase.Other?
  {
    match phase
    case Drafting => "DRAFTING"
    case Redrafting => "REDRAFTING"
    case ActiveDeck => "ACTIVE_DRAFT_DECK"
    case Rewards => "IN_REWARDS"
    case Unknown => ""
  }

  /** A phase is read from its own mode in any case; every mode that is none of these is another phase. */
  lemma PhaseIff(text: string, phase: DraftPhase)
    ensures !phase.Other? ==> (DraftPhase.FromLog(text) == phase <==> Written(text, ModeOf(phase)))
    ensures DraftPhase.FromLog(text).Other? <==> forall known: DraftPhase | !known.Other? :: !Written(text, ModeOf(known))
  {
    hide Trim, Upper;
    assert Written(text, "DRAFTING") <==> Written(text, ModeOf(DraftPhase.Drafting));
    assert Written(text, "REDRAFTING") <==> Written(text, ModeOf(DraftPhase.Redrafting));
    assert Written(text, "ACTIVE_DRAFT_DECK") <==> Written(text, ModeOf(DraftPhase.ActiveDeck));
    assert Written(text, "IN_REWARDS") <==> Written(text, ModeOf(DraftPhase.Rewards));
    assert Written(text, "") <==> Written(text, ModeOf(DraftPhase.Unknown));
  }

  // Cards.

  const PLACEHOLDERS: set<string> := {"", "0", "UNKNOWN", "INVALID", "NONE"}

  /** A placeholder or a hero is no card of a deck; any other id is. */
  lemma RealCardIff(id: CardId)
    ensures IsRealCardId(id) <==>
      (forall name | name in PLACEHOLDERS :: !Written(id, name)) && !StartsAt(Upper(Trim(id)), "HERO_", 0)
  {
    hide Trim, Upper;
    var text := Upper(Trim(id));
    assert forall name :: name in PLACEHOLDERS && Written(id, name) <==> name == text && text in PLACEHOLDERS;
    assert |text| >= 5 ==> (text[..5] == text[0..5] && ("HERO_" <= text <==> text[..5] == "HERO_"));
  }

  /** No hero of a class counts as a card. */
  lemma HeroesAreNoCards(text: string)
    requires HeroClass.FromHeroCardId(text).Some?
    ensures !IsRealCardId(text)
  {
    hide Trim, Upper, HeroClass.FromHeroCardId;
    var class_ := HeroClass.FromHeroCardId(text).value;
    HeroCardIff(text, class_);
    assert HeroCardOf(class_)[..5] == "HERO_";
  }

  // Modes.

  /** Any mode that mentions the Arena is the Arena; a blank or unknown one is unknown. */
  lemma ModeIff(before: string, arena: string, after: string)
    requires Upper(arena) == "ARENA" && before + arena + after == Trim(before + arena + after)
    ensures GameMode.FromLog(before + arena + after).Arena?
    ensures GameMode.FromLog("").Unknown? && GameMode.FromLog("unknown").Unknown? && GameMode.FromLog("TAVERN").Other?
  {
    var text := Upper(before + arena + after);
    assert text[|before|..|before| + 5] == Upper(arena);
    assert StartsAt(text, "ARENA", |before|);
    Modes();
  }

  lemma Modes()
    ensures GameMode.FromLog("").Unknown? && GameMode.FromLog("unknown").Unknown? && GameMode.FromLog("TAVERN").Other?
  {
    assert Upper(Trim("")) == "" && !Contains("", "ARENA");
    var unknown, tavern := Upper(Trim("unknown")), Upper(Trim("TAVERN"));
    assert unknown == "UNKNOWN" && tavern == "TAVERN";
    forall i | 0 <= i <= |unknown| ensures !StartsAt(unknown, "ARENA", i) {
      assert i + 5 <= |unknown| ==> unknown[i..i + 5][1] == unknown[i + 1];
    }
    forall i | 0 <= i <= |tavern| ensures !StartsAt(tavern, "ARENA", i) {
      assert i + 5 <= |tavern| ==> tavern[i..i + 5][0] == tavern[i] && tavern[i..i + 5][1] == tavern[i + 1];
    }
  }
}
