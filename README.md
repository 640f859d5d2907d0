# Composition: construction checks and path lookup

This project models `org.openehr.rm.composition.Composition`. A Composition is the
top-level record of the openEHR reference model, with no public setters: the unit of modification,
transmission and attestation in an electronic health record. Two parts of it carry logic:

- **The full constructor.** It runs a fixed, fail-fast sequence of checks:
  1. the base `Locatable` construction;
  2. archetype root;
  3. content present but empty;
  4. persistent category with a context;
  5. null category;
  6. null territory;
  7. null terminology service;
  8. category code in the openEHR "composition category" group (language "en");
  9. territory in the "countries" code set.

  The four fields `content`, `context`, `category` and `territory` are captured only
  after every check has passed.
- **`itemAtPath` and `validPath`.** `itemAtPath` returns the base class's resolution
  when it has one. Otherwise it removes the node's own path `whole()` from the front of
  the path, when the path starts with it, and looks the rest up in the `content`
  attribute. A miss throws an invalid-path error. `validPath` is true exactly when
  `itemAtPath` returns.

The model is written on values. The object is a `datatype Composition`, a value fixed when the constructor returns. The
constructor is the function `Composition.Create`, which returns `Ok(composition)` or
`Err(rule)`. The rule is a `ConstructionError` enum with one case per exception that the
constructor throws. `itemAtPath` is a function because `validPath` is defined through it.
The source has no loops.

Collaborators whose code is outside this model are passed in from outside, and nothing
is assumed about them:

- **The base class `Locatable`.** Its constructor is the parameter `super`
  (`LocatableArgs -> Option<Locatable>`, where `None` means that it threw). The results
  of `isArchetypeRoot()`, `whole()`, `itemAtPath` and `checkAttribute` are fields of the
  `Locatable` value.
- **The terminology service.** It is a value with two lookup functions: the openEHR
  terminology's `hasCodeForGroupName`, and `codeSet(name).has`.

Java `null` is `Option.None`. The reference-model value types (`Section`, `EventContext`,
`CodePhrase`, ...) are uninterpreted.

Files:

- `wrappers.dfy`: `Option` and `Result`.
- `rm_types.dfy`: the opaque value types.
- `locatable.dfy`: the base class.
- `terminology.dfy`: the terminology service.
- `java_string.dfy`: `String.startsWith` and `String.substring`.
- `composition.dfy`: the Composition and its rule-by-rule specification, made of
  `Violates`, `Rank` and `Valid`.
- `composition_properties.dfy`: the lemmas.

The model follows the code, not the openEHR Reference Model specification, in two places:

- The private `isPersistent(category)` is a stub that returns `false` for every input,
  null included. It is modelled as that constant, not as a classification of category
  codes. So the "invalid persistent category" rule never fires, and the public `isPersistent()` is
  always false.
- The content lookup is whatever `checkAttribute(path, "content", content)` answers. A
  walk of the sections by path segment is not modelled, because that code is not in
  `Composition.java`.

## Model

Functions without a contract of their own are stated by the lemma rows about them:
`Composition.Create` (Composition.java:62-119) by `FirstFailingRuleWins`,
`SucceedsIffNoRuleBroken`, `SoleBrokenRuleIsReported` and the rows about individual
checks; `IsPersistentCategory` (:122-125) by `PersistentRuleNeverFires`; `GetContext`,
`GetCategory` and `GetTerritory` (:143-177) by `CreateCapturesArguments`; `ValidPath`
(:221-228) by `ValidPathIffItemAtPathReturns`.

| member | source | states |
|---|---|---|
| `CompositionProperties.FirstFailingRuleWins` | libraries/src/java/org/openehr/rm/composition/Composition.java:74-113 | The constructor throws for rule e exactly when e is broken and no rule earlier in the check sequence is broken (both directions). |
| `CompositionProperties.SucceedsIffNoRuleBroken` | libraries/src/java/org/openehr/rm/composition/Composition.java:74-118 | Construction succeeds exactly when none of the nine rules is broken. |
| `CompositionProperties.SoleBrokenRuleIsReported` | libraries/src/java/org/openehr/rm/composition/Composition.java:74-113 | An input that breaks one rule only is rejected with that rule. |
| `CompositionProperties.NonRootIsRejected` | libraries/src/java/org/openehr/rm/composition/Composition.java:77-79 | Once the base construction succeeds, a node that is not an archetype root is rejected as "not archetype root", whatever the other arguments are. |
| `CompositionProperties.EmptyContentIsRejected` | libraries/src/java/org/openehr/rm/composition/Composition.java:81-83 | The content rule is broken exactly when content is present and empty. Absent content and non-empty content pass it. Present-but-empty content never constructs. |
| `CompositionProperties.AbsentContentIsAccepted` | libraries/src/java/org/openehr/rm/composition/Composition.java:81-83 | Absent content with every other rule kept constructs successfully. |
| `CompositionProperties.PersistentRuleNeverFires` | libraries/src/java/org/openehr/rm/composition/Composition.java:85-87 | Because the private isPersistent is always false, the persistent-with-context rule is never broken and never reported. |
| `Composition.IsPersistent` | libraries/src/java/org/openehr/rm/composition/Composition.java:164-166 | The public isPersistent() is false for every Composition. |
| `CompositionProperties.NullChecksPrecedeLookups` | libraries/src/java/org/openehr/rm/composition/Composition.java:90-103 | After the structural checks, a null category, then a null territory, then a null terminology service is reported, in that order. Neither lookup error can occur while any of them is null. |
| `CompositionProperties.LookupsDecideTheRest` | libraries/src/java/org/openehr/rm/composition/Composition.java:104-113 | With the earlier checks passed, an unknown category is reported before the territory is looked up. A known category with an unknown territory is reported as an unknown territory. Success happens exactly when both lookups pass. |
| `CompositionProperties.CreateCapturesArguments` | libraries/src/java/org/openehr/rm/composition/Composition.java:115-118 | On success, the stored base and the accessors getContent/getContext/getCategory/getTerritory give back exactly the supplied arguments. The result is not persistent and satisfies every invariant, as the constructor returns it, against the service that admitted it. |
| `Composition.GetContent` | libraries/src/java/org/openehr/rm/composition/Composition.java:133-135 | getContent is null exactly when content is null. Otherwise it is a view with the same length and the same sections at every index. |
| `Composition.ItemAtPath` | libraries/src/java/org/openehr/rm/composition/Composition.java:197-212 | The only error itemAtPath raises is the invalid-path error naming the path as given. |
| `CompositionProperties.BaseResolutionWins` | libraries/src/java/org/openehr/rm/composition/Composition.java:198-201 | An item that the base class resolves is returned unchanged, before any content lookup. |
| `CompositionProperties.ContentLookupDecides` | libraries/src/java/org/openehr/rm/composition/Composition.java:202-211 | When the base class finds nothing, the path is taken relative to whole() if it starts with it, and the full path is used otherwise. That path is looked up in "content". A hit is returned; a miss is an invalid-path error. |
| `CompositionProperties.RelativeToWholeRestores` | libraries/src/java/org/openehr/rm/composition/Composition.java:203-206 | Stripping the own path keeps exactly what follows it: the own path followed by the remainder is the original path. A path without that prefix is kept whole. |
| `CompositionProperties.OwnPathIsStripped` | libraries/src/java/org/openehr/rm/composition/Composition.java:202-211 | A path written as whole() followed by q, which the base class does not resolve, is looked up in content as q. |
| `CompositionProperties.ValidPathIffItemAtPathReturns` | libraries/src/java/org/openehr/rm/composition/Composition.java:221-228 | validPath is true exactly when itemAtPath returns, and false exactly when it throws the invalid-path error. Equivalently, it is true when the base class or the content lookup finds an item. |
| `JavaString.StartsWith` | libraries/src/java/org/openehr/rm/composition/Composition.java:204 | The character-by-character startsWith holds exactly when the prefix is a prefix of the string. |
| `JavaString.Substring` | libraries/src/java/org/openehr/rm/composition/Composition.java:205 | substring(beginIndex) has the remaining length. The first beginIndex characters followed by it give back the string. |

## Left out

- The base class `Locatable` is not part of this model. Its constructor (the null
  checks on archetypeNodeId, name and archetypeDetails, and the empty-links check),
  `isArchetypeRoot()`, `whole()`, `itemAtPath` and `checkAttribute` are supplied from
  outside as the parameter `super` and the fields of a `Locatable` value. Their
  semantics are not derived.
- The base `itemAtPath` and `checkAttribute` are modelled as returning normally, with
  an item or null. An IllegalArgumentException thrown from inside them, which
  `validPath` would also turn into false, is not modelled.
- A null `path`, or a null `whole()`, would make `itemAtPath` throw a
  NullPointerException. Strings in the model are never null.
- If `terminology(OPENEHR)` or `codeSet("countries")` returns null (Composition.java:104,
  :110), the constructor throws a NullPointerException, not an IllegalArgumentException.
  The model's lookups are total functions, so this case is not modelled.
- Java strings are sequences of UTF-16 code units; Dafny's `string` is a sequence of
  Unicode scalar values. `startsWith`, `substring` and `length()` agree on well-formed
  strings; a path or `whole()` holding an unpaired surrogate has no counterpart here.
- The `TerminologyService` lookups are functions supplied from outside. The contents of
  the openEHR "composition category" group and of the ISO 3166 "countries" code set are
  not modelled. The identifier `TerminologyService.OPENEHR` is folded into the name of
  the lookup.
- `pathOfItem` (Composition.java:186-188) always returns null. It has no model and no
  round-trip law with `itemAtPath`.
- The `name_value` invariant is only a comment (Composition.java:94-96) and enforces
  nothing.
- The package-private no-arg constructor and setters (Composition.java:230-250) bypass
  every check. They serve object mapping only and are not modelled.
- Exception message texts are not modelled. Which rule failed is the `ConstructionError`
  case, and an invalid path carries the path it names.
- The constructor stores the caller's `List<Section>` by reference, without a copy
  (Composition.java:115), and `getContent` returns an unmodifiable view of that same
  list. The caller can therefore still change the content after construction (for
  example empty it, breaking the non-empty-content rule), so the class is not immutable
  in its content. Dafny sequences are immutable values: the model records the content's
  value at construction time, and `Valid` states the rules as they hold when the
  constructor returns. Aliasing and later changes through the caller's list are not
  captured.
- `GetContext`, `GetCategory` and `GetTerritory` return the stored field unchanged.
  What they return after construction is stated by
  `CompositionProperties.CreateCapturesArguments`.
