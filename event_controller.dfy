/** The nested read-only lookups of the event endpoints: event, then character
    group by name ignoring case, then character by name ignoring case. Each
    lookup starts from the event service's `find`, over the event table. */
module EventController {
  import opened Wrappers
  import opened JavaString
  import opened Streams
  import CrudService

  datatype Character = Character(name: string)

  datatype CharacterGroup = CharacterGroup(name: string, description: string, characters: seq<Character>)

  /** An event, keyed by name, with its character groups in iteration order. */
  datatype Event = Event(name: string, characterGroups: seq<CharacterGroup>)

  /** The exceptions a lookup lets escape. */
  datatype Fault =
    | NullPointer    // `service.find(id)` answered null for an unknown event
    | NoSuchElement  // `findFirst().get()` on an empty filtered stream

  /** The filter `p -> characterGroupId.equalsIgnoreCase(p.getName())`. */
  function GroupNamed(characterGroupId: string): CharacterGroup -> bool
  {
    (g: CharacterGroup) => EqualsIgnoreCase(characterGroupId, g.name)
  }

  /** The filter `p2 -> characterId.equalsIgnoreCase(p2.getName())`. */
  function CharacterNamed(characterId: string): Character -> bool
  {
    (c: Character) => EqualsIgnoreCase(characterId, c.name)
  }

  /** `stream().filter(...).findFirst().get()`. */
  function FirstOrFail<X>(xs: seq<X>, p: X -> bool): Result<X, Fault>
  {
    match FindFirst(Filter(xs, p))
    case None => Err(NoSuchElement)
    case Some(x) => Ok(x)
  }

  /** `listCharacterGroups(id)`: the character groups of the event found. */
  function ListCharacterGroups(events: map<string, Event>, id: string): (r: Result<seq<CharacterGroup>, Fault>)
    ensures r.Ok? <==> id in events
    ensures r.Ok? ==> r.value == events[id].characterGroups
    ensures r.Err? ==> r.error == NullPointer
  {
    match CrudService.Lookup(events, id)
    case None => Err(NullPointer)
    case Some(event) => Ok(event.characterGroups)
  }

  /** `getCharacterGroups(eventId, characterGroupId)`. */
  function GetCharacterGroups(events: map<string, Event>, eventId: string, characterGroupId: string): Result<CharacterGroup, Fault>
  {
    match CrudService.Lookup(events, eventId)
    case None => Err(NullPointer)
    case Some(event) => FirstOrFail(event.characterGroups, GroupNamed(characterGroupId))
  }

  /** `listCharacters(eventId, characterGroupId)`. */
  function ListCharacters(events: map<string, Event>, eventId: string, characterGroupId: string): Result<seq<Character>, Fault>
  {
    match CrudService.Lookup(events, eventId)
    case None => Err(NullPointer)
    case Some(event) =>
      match FirstOrFail(event.characterGroups, GroupNamed(characterGroupId))
      case Err(f) => Err(f)
      case Ok(group) => Ok(group.characters)
  }

  /** `getCharacter(eventId, characterGroupId, characterId)`. */
  function GetCharacter(events: map<string, Event>, eventId: string, characterGroupId: string, characterId: string): Result<Character, Fault>
  {
    match CrudService.Lookup(events, eventId)
    case None => Err(NullPointer)
    case Some(event) =>
      match FirstOrFail(event.characterGroups, GroupNamed(characterGroupId))
      case Err(f) => Err(f)
      case Ok(group) => FirstOrFail(group.characters, CharacterNamed(characterId))
  }

  // ---------------------------------------------------------------------------
  // Properties of the lookups

  /** The first-or-fail search returns the first match, and fails exactly when
      nothing matches. */
  lemma FirstOrFailSpec<X>(xs: seq<X>, p: X -> bool)
    ensures FirstOrFail(xs, p) == Err(NoSuchElement) <==> NoneMatch(xs, p)
    ensures FirstOrFail(xs, p).Ok? ==> exists i :: IsFirstMatch(xs, p, i) && xs[i] == FirstOrFail(xs, p).value
  {
    FindFirstFilterEmpty(xs, p);
    if FirstOrFail(xs, p).Ok? {
      FindFirstFilterIsFirstMatch(xs, p);
    }
  }

  /** A group lookup that succeeds returns, from the event found, a group whose
      name equals the requested one ignoring case, and no earlier group matches. */
  lemma GetCharacterGroupsFindsFirstMatch(events: map<string, Event>, eventId: string, characterGroupId: string)
    requires GetCharacterGroups(events, eventId, characterGroupId).Ok?
    ensures eventId in events
    ensures exists i :: IsFirstMatch(events[eventId].characterGroups, GroupNamed(characterGroupId), i)
                        && events[eventId].characterGroups[i] == GetCharacterGroups(events, eventId, characterGroupId).value
    ensures EqualsIgnoreCase(characterGroupId, GetCharacterGroups(events, eventId, characterGroupId).value.name)
  {
    FirstOrFailSpec(events[eventId].characterGroups, GroupNamed(characterGroupId));
  }

  /** Conversely, the first matching group is the one returned; later matches
      never are. */
  lemma GetCharacterGroupsReturnsFirstMatch(events: map<string, Event>, eventId: string, characterGroupId: string, i: int)
    requires eventId in events
    requires IsFirstMatch(events[eventId].characterGroups, GroupNamed(characterGroupId), i)
    ensures GetCharacterGroups(events, eventId, characterGroupId) == Ok(events[eventId].characterGroups[i])
  {
    FirstMatchIsFound(events[eventId].characterGroups, GroupNamed(characterGroupId), i);
  }

  /** A group lookup fails with a null dereference exactly for an unknown event,
      and with no such element exactly when the event has no matching group. */
  lemma GetCharacterGroupsFailures(events: map<string, Event>, eventId: string, characterGroupId: string)
    ensures GetCharacterGroups(events, eventId, characterGroupId) == Err(NullPointer) <==> eventId !in events
    ensures GetCharacterGroups(events, eventId, characterGroupId) == Err(NoSuchElement)
            <==> eventId in events && NoneMatch(events[eventId].characterGroups, GroupNamed(characterGroupId))
  {
    if eventId in events {
      FirstOrFailSpec(events[eventId].characterGroups, GroupNamed(characterGroupId));
    }
  }

  /** `listCharacters` answers the characters of the very group `getCharacterGroups`
      finds, and fails the same way. */
  lemma ListCharactersOfFoundGroup(events: map<string, Event>, eventId: string, characterGroupId: string)
    ensures ListCharacters(events, eventId, characterGroupId)
            == match GetCharacterGroups(events, eventId, characterGroupId)
               case Ok(group) => Ok(group.characters)
               case Err(f) => Err(f)
  {
  }

  /** A character lookup that succeeds returns the first character, ignoring
      case, of the first matching group of the event found. */
  lemma GetCharacterFindsFirstMatch(events: map<string, Event>, eventId: string, characterGroupId: string, characterId: string)
    requires GetCharacter(events, eventId, characterGroupId, characterId).Ok?
    ensures GetCharacterGroups(events, eventId, characterGroupId).Ok?
    ensures exists j :: IsFirstMatch(GetCharacterGroups(events, eventId, characterGroupId).value.characters, CharacterNamed(characterId), j)
                        && GetCharacterGroups(events, eventId, characterGroupId).value.characters[j]
                           == GetCharacter(events, eventId, characterGroupId, characterId).value
    ensures EqualsIgnoreCase(characterId, GetCharacter(events, eventId, characterGroupId, characterId).value.name)
  {
    var group := GetCharacterGroups(events, eventId, characterGroupId).value;
    FirstOrFailSpec(group.characters, CharacterNamed(characterId));
  }

  /** Conversely, given the first matching group and the first matching
      character in it, that character is returned. */
  lemma GetCharacterReturnsFirstMatch(events: map<string, Event>, eventId: string, characterGroupId: string, characterId: string, i: int, j: int)
    requires eventId in events
    requires IsFirstMatch(events[eventId].characterGroups, GroupNamed(characterGroupId), i)
    requires IsFirstMatch(events[eventId].characterGroups[i].characters, CharacterNamed(characterId), j)
    ensures GetCharacter(events, eventId, characterGroupId, characterId) == Ok(events[eventId].characterGroups[i].characters[j])
  {
    var groups := events[eventId].characterGroups;
    FirstMatchIsFound(groups, GroupNamed(characterGroupId), i);
    FirstMatchIsFound(groups[i].characters, CharacterNamed(characterId), j);
  }

  /** A character lookup fails when the event, the group or the character is
      missing, and only then. */
  lemma GetCharacterFailures(events: map<string, Event>, eventId: string, characterGroupId: string, characterId: string)
    ensures GetCharacter(events, eventId, characterGroupId, characterId) == Err(NullPointer) <==> eventId !in events
    ensures GetCharacter(events, eventId, characterGroupId, characterId) == Err(NoSuchElement)
            <==> eventId in events
                 && (GetCharacterGroups(events, eventId, characterGroupId).Err?
                     || NoneMatch(GetCharacterGroups(events, eventId, characterGroupId).value.characters, CharacterNamed(characterId)))
  {
    GetCharacterGroupsFailures(events, eventId, characterGroupId);
    if GetCharacterGroups(events, eventId, characterGroupId).Ok? {
      FirstOrFailSpec(GetCharacterGroups(events, eventId, characterGroupId).value.characters, CharacterNamed(characterId));
    }
  }

  /** Requested names that are equal ignoring case find the same group and the
      same character. */
  lemma LookupIgnoresCase(events: map<string, Event>, eventId: string, g1: string, g2: string, c1: string, c2: string)
    requires EqualsIgnoreCase(g1, g2) && EqualsIgnoreCase(c1, c2)
    ensures GetCharacterGroups(events, eventId, g1) == GetCharacterGroups(events, eventId, g2)
    ensures GetCharacter(events, eventId, g1, c1) == GetCharacter(events, eventId, g2, c2)
  {
    if eventId in events {
      var groups := events[eventId].characterGroups;
      forall k | 0 <= k < |groups| ensures GroupNamed(g1)(groups[k]) == GroupNamed(g2)(groups[k]) {
        EqualsIgnoreCaseSubstitute(g1, g2, groups[k].name);
      }
      FilterAgreeing(groups, GroupNamed(g1), GroupNamed(g2));
      if GetCharacterGroups(events, eventId, g1).Ok? {
        var characters := GetCharacterGroups(events, eventId, g1).value.characters;
        forall k | 0 <= k < |characters| ensures CharacterNamed(c1)(characters[k]) == CharacterNamed(c2)(characters[k]) {
          EqualsIgnoreCaseSubstitute(c1, c2, characters[k].name);
        }
        FilterAgreeing(characters, CharacterNamed(c1), CharacterNamed(c2));
      }
    }
  }

  /** With two groups whose names differ only in case, asking in a third casing
      yields the earlier group. */
  lemma EarlierGroupWins()
    ensures GetCharacterGroups(
              map["larp" := Event("larp", [CharacterGroup("Elves", "", []),
                                           CharacterGroup("orcs", "first", []),
                                           CharacterGroup("Orcs", "second", [])])],
              "larp", "ORCS")
            == Ok(CharacterGroup("orcs", "first", []))
  {
    var groups := [CharacterGroup("Elves", "", []), CharacterGroup("orcs", "first", []), CharacterGroup("Orcs", "second", [])];
    assert !GroupNamed("ORCS")(groups[0]);
    assert GroupNamed("ORCS")(groups[1]);
    assert IsFirstMatch(groups, GroupNamed("ORCS"), 1);
    GetCharacterGroupsReturnsFirstMatch(map["larp" := Event("larp", groups)], "larp", "ORCS", 1);
  }
}
