# TerraIncognitaServer core, modelled in Dafny

The server is a CRUD REST backend for live-action role-play events. This
project models the three pieces of it that hold logic of their own:

- **The generic CRUD service** (`AbstractServiceDTO`), module `CrudService`.
  Each resource type (user, event, role, inscription) gets a keyed table of
  records with:
  - existence checks that throw the fixed codes `ERR:RESOURCE:01` and `ERR:RESOURCE:02`;
  - a validated save;
  - an update that copies the incoming properties onto the stored record;
  - deletion by element or by identifier;
  - creation from an identifier or from a generated one.

  The document repository is the field `table: map<ID, T>` of class
  `Service`, which the state-changing methods reassign. The parts each
  resource supplies form the datatype `Resource`:
  - the identifier property;
  - the validator, which returns a possibly null set of violations;
  - `BeanUtils.copyProperties`;
  - `buildElement`;
  - `buildId`.

  Every state-changing method gives its full result and new table as a pure
  `...Step` function of the old table. The lemmas state the promised
  properties about those functions.
- **The nested lookups of the event endpoints** (`EventController`), module
  `EventController`, built on module `Streams`. Each lookup starts from the
  event service's `find` over the event table. It then runs
  `stream().filter(name equalsIgnoreCase).findFirst().get()` over the
  character groups, and for `getCharacter` again over the characters of the
  group found. `Filter`/`FindFirst` follow the stream pipeline literally. The
  lemmas connect it to an independent "first matching position" definition, in
  both directions. The lookups are functions over values, so none of them can
  change an event.
- **The permission evaluator** (`PermissionEvaluatorImpl`), module
  `PermissionEvaluator`. The object entry point grants access exactly when the
  principal equals the target User's username. The identifier-and-type entry
  point always denies.

Java exceptions are error values:
- `Outcome` for `void` calls;
- `Result` for calls that return a value;
- `Option` for references that may be null.

Case-insensitive comparison (module `JavaString`) follows the structure of
`String.equalsIgnoreCase` on the ASCII letters.

Two behaviours of the code a reader might not expect:
- The code's `update` saves the merged record under *its own* identifier. If
  the copied properties change the identifier, the record lands under the new
  key and the old one stays. A reader might expect the record under `id` to be
  overwritten instead.
- The "unsupported operation" of `create()` comes from the resource's own
  `buildId`, not from the generic code. The model therefore makes it a choice
  of `Resource.buildId` (`NoIdGeneration`).

## Model

| member | source | states |
|---|---|---|
| CrudService.Validate | src/main/java/com/opipo/terraincognitaserver/service/impl/AbstractServiceDTO.java:73-80 | the element is valid exactly when the validator answers null or an empty set; otherwise the failure carries every violation reported |
| CrudService.BuildId | src/main/java/com/opipo/terraincognitaserver/service/impl/AbstractServiceDTO.java:28 | identifier generation fails with an unsupported operation exactly for a resource without an id strategy |
| CrudService.Service.Find | src/main/java/com/opipo/terraincognitaserver/service/impl/AbstractServiceDTO.java:49-52 | answers the stored record for a present identifier and null (None) for an absent one |
| CrudService.Service.Exists | src/main/java/com/opipo/terraincognitaserver/service/impl/AbstractServiceDTO.java:30-33 | true exactly when the table holds a record for the identifier, i.e. when `find` is non-null; the table is not changed |
| CrudService.Service.CheckExists | src/main/java/com/opipo/terraincognitaserver/service/impl/AbstractServiceDTO.java:35-40 | fails with IllegalArgument("ERR:RESOURCE:01") exactly when the identifier is absent, succeeds exactly when present; read-only |
| CrudService.Service.CheckDoesntExists | src/main/java/com/opipo/terraincognitaserver/service/impl/AbstractServiceDTO.java:42-47 | fails with IllegalArgument("ERR:RESOURCE:02") exactly when the identifier is present, succeeds exactly when absent; read-only |
| CrudService.Service.FindAll | src/main/java/com/opipo/terraincognitaserver/service/impl/AbstractServiceDTO.java:54-57 | answers exactly the stored records, as many as there are identifiers |
| CrudService.Service.Save | src/main/java/com/opipo/terraincognitaserver/service/impl/AbstractServiceDTO.java:59-63 | result and new table are those of SaveStep on the old table; the table stays well keyed |
| CrudService.Service.Update | src/main/java/com/opipo/terraincognitaserver/service/impl/AbstractServiceDTO.java:65-71 | result and new table are those of UpdateStep on the old table; the table stays well keyed |
| CrudService.Service.Delete | src/main/java/com/opipo/terraincognitaserver/service/impl/AbstractServiceDTO.java:82-85 | the new table is the old one without the element's identifier; nothing else changes |
| CrudService.Service.DeleteById | src/main/java/com/opipo/terraincognitaserver/service/impl/AbstractServiceDTO.java:87-90 | the new table is the old one without the identifier; nothing else changes |
| CrudService.Service.Create | src/main/java/com/opipo/terraincognitaserver/service/impl/AbstractServiceDTO.java:92-95 | result and new table are those of saving `buildElement(id)` |
| CrudService.Service.CreateGenerated | src/main/java/com/opipo/terraincognitaserver/service/impl/AbstractServiceDTO.java:97-100 | result and new table are those of `create(buildId())`, or an unsupported-operation failure with the table unchanged |
| CrudService.RecordsCount | src/test/java/com/opipo/terraincognitaserver/it/UserStep.java:153-159 | in a table where every record sits under its own identifier there are exactly as many distinct records as identifiers, so `findAll` loses none |
| CrudService.SaveRejectsInvalid | src/main/java/com/opipo/terraincognitaserver/service/impl/AbstractServiceDTO.java:59-63 | a non-empty violation set makes save fail with all of those violations and leaves the table untouched |
| CrudService.SaveThenFind | src/main/java/com/opipo/terraincognitaserver/service/impl/AbstractServiceDTO.java:59-63 | a valid save returns the element, `find` of its identifier then answers it, every other identifier answers as before, and the table stays well keyed |
| CrudService.SaveThenDeleteRestores | src/main/java/com/opipo/terraincognitaserver/service/impl/AbstractServiceDTO.java:59-90 | saving an element under a fresh identifier and deleting that identifier gives back the original table |
| CrudService.SaveThenFindAll | src/main/java/com/opipo/terraincognitaserver/service/impl/AbstractServiceDTO.java:54-63 | a validly saved element is among the records `findAll` answers |
| CrudService.UpdateMissing | src/main/java/com/opipo/terraincognitaserver/service/impl/AbstractServiceDTO.java:66-67 | update of an absent identifier fails with NoSuchElement (`Optional.get`) and leaves the table untouched |
| CrudService.UpdateIsSaveOfMerged | src/main/java/com/opipo/terraincognitaserver/service/impl/AbstractServiceDTO.java:65-71 | on a present identifier, update behaves exactly as save of the incoming element copied onto the stored record |
| CrudService.UpdateWithFullCopy | src/test/java/com/opipo/terraincognitaserver/service/GenericCRUDServiceTest.java:161-185 | when the copy yields the incoming element and it is valid (null or empty violations), update returns the incoming element and replaces exactly the record under the identifier |
| CrudService.UpdateRejectsInvalid | src/main/java/com/opipo/terraincognitaserver/service/impl/AbstractServiceDTO.java:68-69 | a merged record that fails validation makes update fail with all its violations and changes nothing |
| CrudService.DeleteRemovesOnlyThat | src/main/java/com/opipo/terraincognitaserver/service/impl/AbstractServiceDTO.java:82-90 | after deletion `find` of that identifier answers null, every other identifier answers as before, deleting again changes nothing, and the table stays well keyed |
| CrudService.DeleteThenFindAll | src/main/java/com/opipo/terraincognitaserver/service/impl/AbstractServiceDTO.java:82-85 | after `delete(element)` the element is no longer among the records `findAll` answers |
| CrudService.CreateStoresBuiltElement | src/main/java/com/opipo/terraincognitaserver/service/impl/AbstractServiceDTO.java:92-95 | `create(id)` with a valid default element returns that element and stores it under its identifier |
| CrudService.CreateWithoutIdGeneration | src/test/java/com/opipo/terraincognitaserver/service/GenericCRUDServiceTest.java:192-197 | `create()` for a resource without generated identifiers fails with an unsupported operation and stores nothing |
| CrudService.CreateGeneratedDelegates | src/main/java/com/opipo/terraincognitaserver/service/impl/AbstractServiceDTO.java:97-100 | `create()` for a resource with an id generator is exactly `create(id)` of the generated identifier |
| Streams.Filter | src/main/java/com/opipo/terraincognitaserver/rest/api/EventController.java:58-59 | the filtered stream is no longer than its source and each of its elements satisfies the filter |
| Streams.FindFirst | src/main/java/com/opipo/terraincognitaserver/rest/api/EventController.java:59 | `findFirst` is empty exactly for an empty stream and otherwise answers its head |
| Streams.FindFirstFilterEmpty | src/main/java/com/opipo/terraincognitaserver/rest/api/EventController.java:58-59 | filter-then-findFirst is empty exactly when no element satisfies the filter |
| Streams.FindFirstFilterIsFirstMatch | src/main/java/com/opipo/terraincognitaserver/rest/api/EventController.java:58-59 | what filter-then-findFirst answers is the element at the first matching position |
| Streams.FirstMatchIsFound | src/main/java/com/opipo/terraincognitaserver/rest/api/EventController.java:58-59 | the element at the first matching position is what filter-then-findFirst answers, so later matches are never answered |
| Streams.FilterAgreeing | src/main/java/com/opipo/terraincognitaserver/rest/api/EventController.java:78-80 | filters that agree on every element give the same filtered stream |
| EventController.ListCharacterGroups | src/main/java/com/opipo/terraincognitaserver/rest/api/EventController.java:47-52 | answers exactly the character groups of the event found, and fails with a null dereference exactly for an unknown event |
| EventController.FirstOrFailSpec | src/main/java/com/opipo/terraincognitaserver/rest/api/EventController.java:58-59 | `filter(...).findFirst().get()` fails with NoSuchElement exactly when nothing matches, and otherwise answers the first match |
| EventController.GetCharacterGroupsFindsFirstMatch | src/main/java/com/opipo/terraincognitaserver/rest/api/EventController.java:54-60 | a successful group lookup comes from a known event and answers a group whose name equals the requested one ignoring case, with no earlier group matching |
| EventController.GetCharacterGroupsReturnsFirstMatch | src/main/java/com/opipo/terraincognitaserver/rest/api/EventController.java:54-60 | the first group whose name matches ignoring case is the one answered |
| EventController.GetCharacterGroupsFailures | src/main/java/com/opipo/terraincognitaserver/rest/api/EventController.java:54-60 | the group lookup fails with NullPointer exactly for an unknown event and with NoSuchElement exactly when no group name matches ignoring case |
| EventController.ListCharactersOfFoundGroup | src/main/java/com/opipo/terraincognitaserver/rest/api/EventController.java:62-70 | `listCharacters` answers the characters of the very group the group lookup finds, and fails exactly as it does |
| EventController.GetCharacterFindsFirstMatch | src/main/java/com/opipo/terraincognitaserver/rest/api/EventController.java:72-82 | a successful character lookup answers the first character matching ignoring case in the first matching group |
| EventController.GetCharacterReturnsFirstMatch | src/main/java/com/opipo/terraincognitaserver/rest/api/EventController.java:72-82 | given the first matching group and its first matching character, that character is answered |
| EventController.GetCharacterFailures | src/main/java/com/opipo/terraincognitaserver/rest/api/EventController.java:72-82 | the character lookup fails with NullPointer exactly for an unknown event, and with NoSuchElement exactly when the group or the character is missing |
| EventController.LookupIgnoresCase | src/main/java/com/opipo/terraincognitaserver/rest/api/EventController.java:54-82 | names equal ignoring case find the same group and the same character |
| EventController.EarlierGroupWins | src/main/java/com/opipo/terraincognitaserver/rest/api/EventController.java:58-59 | of groups "orcs" then "Orcs", a lookup of "ORCS" answers "orcs", the earlier one |
| PermissionEvaluator.HasPermissionById | src/main/java/com/opipo/terraincognitaserver/security/PermissionEvaluatorImpl.java:14-19 | denies for every input |
| PermissionEvaluator.HasPermission | src/main/java/com/opipo/terraincognitaserver/security/PermissionEvaluatorImpl.java:21-24 | for a User target, grants exactly when the principal is a string equal to its username; a null target fails with NullPointer and a non-User target with ClassCast |
| PermissionEvaluator.PermissionArgumentIgnored | src/main/java/com/opipo/terraincognitaserver/security/PermissionEvaluatorImpl.java:22-23 | the answer does not depend on the permission argument |
| PermissionEvaluator.GrantedOnlyToSelf | src/main/java/com/opipo/terraincognitaserver/security/PermissionEvaluatorImpl.java:21-24 | self-access only: a principal is granted access to at most one, non-null, username |

## Left out

- The Spring MVC layer is not modelled, because it is framework plumbing with no logic. This covers `ResponseEntity`, HTTP status codes, routing, Swagger annotations and `HttpServletRequest`. Each endpoint is modelled by the value it wraps.
- The MongoDB repository is a `map` keyed by `Resource.idOf`, not MongoDB itself. `save` is an upsert under the element's identifier. `delete(element)` removes by the element's identifier. No deletion fails on an absent identifier.
- Constraint evaluation by javax.validation is not modelled. The validator is the parameter `Resource.validator`.
- `BeanUtils.copyProperties` is the parameter `Resource.copyProperties`. The tests pin down only the case where its result equals the incoming element (`CrudService.UpdateWithFullCopy`).
- The in-place mutation of the fetched record by `copyProperties` is not modelled. A record fetched from the repository is a copy. So a failed validation in `update` leaves the stored record as it was.
- How concrete resources generate identifiers is not modelled, because `buildId` bodies are per-resource code outside this model. A generator is a function of a `seed` parameter standing for its source of novelty.
- Subclass overrides of `save` are not modelled. One example is the user service hashing passwords with BCrypt. The model gives the generic base behaviour that `create(id)` reaches through `this.save`.
- Null identifiers and null elements passed to the CRUD service are not modelled: `ID` and `T` have no null. The real repository's `findById(null)` and `deleteById(null)`, and `validate(null)`, throw IllegalArgumentException. One service test uses a null id as its valid id, which works only against a mocked repository.
- `NEEDS_ID` ("ERR:RESOURCE:03") is declared but not used by the generic service. It is kept only as a constant.
- `CrudService.Service.FindAll` answers a set, not a list: the repository's order is unspecified.
- `JavaString.EqualsIgnoreCase` folds case on ASCII letters only. Full Unicode case mapping is not modelled.
- Event, character group and character carry only the fields the lookups use. The DTO sources are not part of this model. So neither their equality nor `CharacterGroup.compareTo` is modelled.
- The order of an event's groups and a group's characters is their iteration order. For a hash-based set that order is unspecified, and so is which match comes "first".
- Null names and null collections inside an event are not modelled. They would make `equalsIgnoreCase` answer false, or make a stream call throw.
- A null principal is not modelled.
- The `Authentication` object and the authentication filter chain are not modelled. The principal is a plain value.
- `EventInscriptionService` is an interface; its implementation is outside this model, so it has no behaviour here.
- Concurrency is not modelled. Each call is one sequential step on the table.
