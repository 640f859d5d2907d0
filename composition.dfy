/** org.openehr.rm.composition.Composition: the top-level record node, which
    has no public setters (its content list stays shared with the caller). Its full constructor runs a fixed, fail-fast sequence of checks and
    captures its four fields only when all of them pass; itemAtPath resolves a
    path through the base class first and then through the content attribute. */
module Composition {
  import opened Wrappers
  import opened RmTypes
  import opened Locatable
  import opened Terminology
  import JavaString

  /** The group of the openEHR terminology a category code must belong to. */
  const CompositionCategoryGroup: string := "composition category"

  /** The language in which the category group is looked up. */
  const CategoryLanguage: string := "en"

  /** The code set a territory must belong to. */
  const CountriesCodeSet: string := "countries"

  /** The attribute name under which content is searched by a path. */
  const ContentAttribute: string := "content"

  /** Which check of the full constructor threw, in the order they run. */
  datatype ConstructionError =
    | BaseRejected               // super(...) threw
    | NotArchetypeRoot           // "not archetype root"
    | EmptyContent               // "empty content"
    | InvalidPersistentCategory  // "invalid persistent category"
    | NullCategory               // "null cateogry"
    | NullTerritory              // "null territory"
    | NullTerminologyService     // "null terminologyService"
    | UnknownCategory            // "unknown category: <code>"
    | UnknownTerritory           // "unknown territory: <code>"

  /** The IllegalArgumentException itemAtPath throws, with the path it names. */
  datatype PathError = InvalidPath(path: string)

  /** The arguments of the full constructor; None stands for null. */
  datatype CompositionArgs = CompositionArgs(
    base: LocatableArgs,
    content: Option<seq<Section>>,
    context: Option<EventContext>,
    category: Option<DvCodedText>,
    territory: Option<CodePhrase>,
    terminologyService: Option<TerminologyService>)

  /** A constructed Composition: its Locatable part and its four own fields.
      category and territory cannot be null once the constructor has returned. */
  datatype Composition = Composition(
    locatable: Locatable,
    content: Option<seq<Section>>,
    context: Option<EventContext>,
    category: DvCodedText,
    territory: CodePhrase)

  /** The private static isPersistent(category): not implemented in the
      source, it answers false for every category, null included. */
  predicate IsPersistentCategory(category: Option<DvCodedText>)
  {
    false
  }

  /** The full constructor. The first check that fails decides the error;
      the fields are captured only after every check has passed. */
  function Create(args: CompositionArgs, super: LocatableConstructor): (r: Result<Composition, ConstructionError>)
  {
    match super(args.base)
    case None => Err(BaseRejected)
    case Some(base) =>
      if !base.isArchetypeRoot then Err(NotArchetypeRoot)
      else if args.content.Some? && |args.content.value| == 0 then Err(EmptyContent)
      else if IsPersistentCategory(args.category) && args.context.Some? then Err(InvalidPersistentCategory)
      else if args.category.None? then Err(NullCategory)
      else if args.territory.None? then Err(NullTerritory)
      else if args.terminologyService.None? then Err(NullTerminologyService)
      else
        var service := args.terminologyService.value;
        if !service.openEhrHasCodeForGroupName(args.category.value.definingCode, CompositionCategoryGroup, CategoryLanguage) then
          Err(UnknownCategory)
        else if !service.codeSetHas(CountriesCodeSet, args.territory.value) then
          Err(UnknownTerritory)
        else
          Ok(Composition(base, args.content, args.context, args.category.value, args.territory.value))
  }

  /** getContent(): null when there is no content, otherwise an unmodifiable
      view holding the same sections in the same order. */
  function GetContent(c: Composition): (r: Option<seq<Section>>)
    ensures r.None? <==> c.content.None?
    ensures r.Some? ==> |r.value| == |c.content.value|
    ensures r.Some? ==> forall i :: 0 <= i < |r.value| ==> r.value[i] == c.content.value[i]
  {
    c.content
  }

  /** getContext() */
  function GetContext(c: Composition): (r: Option<EventContext>)
  {
    c.context
  }

  /** getCategory() */
  function GetCategory(c: Composition): (r: DvCodedText)
  {
    c.category
  }

  /** getTerritory() */
  function GetTerritory(c: Composition): (r: CodePhrase)
  {
    c.territory
  }

  /** The public isPersistent(): the private predicate applied to the stored
      category, so never true. */
  predicate IsPersistent(c: Composition)
    ensures !IsPersistent(c)
  {
    IsPersistentCategory(Some(c.category))
  }

  /** itemAtPath(path): the base class's answer when it has one; otherwise the
      path, without this node's own path in front of it when it starts with
      that, is looked up in the content attribute, and a miss is an
      invalid-path error. */
  function ItemAtPath(c: Composition, path: string): (r: Result<Item, PathError>)
    ensures r.Err? ==> r.error == InvalidPath(path)
  {
    match c.locatable.itemAtPath(path)
    case Some(item) => Ok(item)
    case None =>
      var whole := c.locatable.whole;
      var tmp := if JavaString.StartsWith(path, whole) then JavaString.Substring(path, |whole|) else path;
      match c.locatable.checkAttribute(tmp, ContentAttribute, c.content)
      case Some(item) => Ok(item)
      case None => Err(InvalidPath(path))
  }

  /** validPath(path): whether itemAtPath(path) returns without throwing. */
  predicate ValidPath(c: Composition, path: string)
  {
    ItemAtPath(c, path).Ok?
  }

  // ---------------------------------------------------------------------
  // Specification: the construction rules one by one, and their order
  // ---------------------------------------------------------------------

  /** Whether the arguments break rule e, judged on its own. A lookup rule is
      broken only when the values it consults are present. */
  ghost predicate Violates(args: CompositionArgs, super: LocatableConstructor, e: ConstructionError)
  {
    match e
    case BaseRejected => super(args.base).None?
    case NotArchetypeRoot => super(args.base).Some? && !super(args.base).value.isArchetypeRoot
    case EmptyContent => args.content == Some([])
    case InvalidPersistentCategory => IsPersistentCategory(args.category) && args.context.Some?
    case NullCategory => args.category.None?
    case NullTerritory => args.territory.None?
    case NullTerminologyService => args.terminologyService.None?
    case UnknownCategory =>
      && args.category.Some? && args.terminologyService.Some?
      && !args.terminologyService.value.openEhrHasCodeForGroupName(
            args.category.value.definingCode, CompositionCategoryGroup, CategoryLanguage)
    case UnknownTerritory =>
      && args.territory.Some? && args.terminologyService.Some?
      && !args.terminologyService.value.codeSetHas(CountriesCodeSet, args.territory.value)
  }

  /** The position of each rule in the constructor's check sequence. */
  function Rank(e: ConstructionError): (r: nat)
  {
    match e
    case BaseRejected => 0
    case NotArchetypeRoot => 1
    case EmptyContent => 2
    case InvalidPersistentCategory => 3
    case NullCategory => 4
    case NullTerritory => 5
    case NullTerminologyService => 6
    case UnknownCategory => 7
    case UnknownTerritory => 8
  }

  /** No rule earlier than e is broken. */
  ghost predicate EarlierRulesHold(args: CompositionArgs, super: LocatableConstructor, e: ConstructionError)
  {
    forall e' :: Rank(e') < Rank(e) ==> !Violates(args, super, e')
  }

  /** The invariants that hold of a Composition when the constructor returns,
      against the terminology service that admitted it. The content list is
      the value it had at that moment. */
  ghost predicate Valid(c: Composition, service: TerminologyService)
  {
    && c.locatable.isArchetypeRoot
    && c.content != Some([])
    && !(IsPersistent(c) && c.context.Some?)
    && service.openEhrHasCodeForGroupName(c.category.definingCode, CompositionCategoryGroup, CategoryLanguage)
    && service.codeSetHas(CountriesCodeSet, c.territory)
  }

  /** The content left after this node's own path is taken off the front of
      path, when path starts with it. */
  ghost function RelativeToWhole(whole: string, path: string): (r: string)
  {
    if whole <= path then path[|whole|..] else path
  }
}
