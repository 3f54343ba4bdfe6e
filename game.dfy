/**
 * The game objects the engine queries, as plain values. The engine only reads them: an
 * actor is what its queries answer, a footstep set is its form identity, and the data
 * handler's form lookup is a partial map.
 */
module Game {
  import opened Wrappers

  /** FormID is a 32-bit unsigned form identifier. */
  type FormID = x: int | 0 <= x < 0x1_0000_0000

  /** A BGSFootstepSet form, known to the engine by its form identifier. */
  datatype FootstepSet = FootstepSet(formID: FormID)

  /**
   * BGSBipedObjectForm::BipedObjectSlot: `Feet` is the only slot the configuration can name;
   * the game's other slots are `OtherSlot`.
   */
  datatype Slot = Feet | OtherSlot(index: nat)

  /** A worn armor piece, known by the keywords it carries. */
  datatype Armor = Armor(keywords: set<string>)

  /** An actor, known by the answers of the queries the predicates make. */
  datatype Actor = Actor(female: bool, keywords: set<string>, wornArmor: map<Slot, Armor>)

  /** Actor::GetActorBase()->IsFemale() */
  predicate IsFemale(actor: Actor) {
    actor.female
  }

  /** Actor::HasKeywordString */
  predicate ActorHasKeyword(actor: Actor, keyword: string) {
    keyword in actor.keywords
  }

  /** Actor::GetWornArmor: the armor worn in a slot, or null. */
  function GetWornArmor(actor: Actor, slot: Slot): Option<Armor> {
    if slot in actor.wornArmor then Some(actor.wornArmor[slot]) else None
  }

  /** TESObjectARMO::HasKeywordString */
  predicate ArmorHasKeyword(armor: Armor, keyword: string) {
    keyword in armor.keywords
  }

  /** The data handler's forms: footstep sets by (plugin name, local form id). */
  type Registry = map<(string, FormID), FootstepSet>

  /** TESDataHandler::LookupForm<BGSFootstepSet>(formID, mod): the form, or null. */
  function LookupForm(registry: Registry, formID: FormID, mod: string): Option<FootstepSet> {
    if (mod, formID) in registry then Some(registry[(mod, formID)]) else None
  }
}
