/** What the Composition constructor and its path lookup promise, stated
    against the rule-by-rule specification in module Composition. */
module CompositionProperties {
  import opened Wrappers
  import opened RmTypes
  import opened Locatable
  import opened Terminology
  import opened Composition

  // ---------------------------------------------------------------------
  // Construction: the order of the checks
  // ---------------------------------------------------------------------

  /** The constructor throws for rule e exactly when e is broken and no
      earlier rule is: the first failing rule wins. */
  lemma FirstFailingRuleWins(args: CompositionArgs, super: LocatableConstructor, e: ConstructionError)
    ensures Create(args, super) == Err(e) <==> Violates(args, super, e) && EarlierRulesHold(args, super, e)
  {
    if Create(args, super) == Err(e) {
      forall e' | Rank(e') < Rank(e)
        ensures !Violates(args, super, e')
      {
        EarlierCheckPassed(args, super, e, e');
      }
    } else if Violates(args, super, e) && EarlierRulesHold(args, super, e) {
      var reported := FailureReportsBrokenRule(args, super);
      var f := reported.value;
      if Rank(e) < Rank(f) {
        EarlierCheckPassed(args, super, f, e);
      }
      RankInjective(e, f);
    }
  }

  /** The constructor succeeds exactly when no rule is broken. */
  lemma SucceedsIffNoRuleBroken(args: CompositionArgs, super: LocatableConstructor)
    ensures Create(args, super).Ok? <==> forall e :: !Violates(args, super, e)
  {
    var reported := FailureReportsBrokenRule(args, super);
  }

  /** A rule broken on its own is the one reported. */
  lemma SoleBrokenRuleIsReported(args: CompositionArgs, super: LocatableConstructor, e: ConstructionError)
    requires Violates(args, super, e)
    requires forall e' :: e' != e ==> !Violates(args, super, e')
    ensures Create(args, super) == Err(e)
  {
    FirstFailingRuleWins(args, super, e);
  }

  // ---------------------------------------------------------------------
  // Construction: the individual checks
  // ---------------------------------------------------------------------

  /** A base node that is not an archetype root is always rejected, whatever
      the other arguments. */
  lemma NonRootIsRejected(args: CompositionArgs, super: LocatableConstructor)
    requires super(args.base).Some? && !super(args.base).value.isArchetypeRoot
    ensures Create(args, super) == Err(NotArchetypeRoot)
  {
  }

  /** Present-but-empty content breaks the content rule; absent content and
      non-empty content do not (the first clause only spells out that case of
      Violates). The substantive clause is the second: empty content is never
      accepted, whichever rule ends up reported. */
  lemma EmptyContentIsRejected(args: CompositionArgs, super: LocatableConstructor)
    ensures Violates(args, super, EmptyContent) <==> args.content.Some? && |args.content.value| == 0
    ensures args.content == Some([]) ==> Create(args, super).Err?
  {
  }

  /** Absent content never blocks construction: with all other rules kept,
      a Composition without content is created. */
  lemma AbsentContentIsAccepted(args: CompositionArgs, super: LocatableConstructor)
    requires args.content.None?
    requires forall e :: e != EmptyContent ==> !Violates(args, super, e)
    ensures Create(args, super).Ok?
  {
    SucceedsIffNoRuleBroken(args, super);
  }

  /** The persistent-with-context rule never fires: the private isPersistent
      answers false for every category. */
  lemma PersistentRuleNeverFires(args: CompositionArgs, super: LocatableConstructor)
    ensures !Violates(args, super, InvalidPersistentCategory)
    ensures Create(args, super) != Err(InvalidPersistentCategory)
  {
  }

  /** Once the structural checks pass, a null category, territory or
      terminology service is reported in that order, before either lookup. */
  lemma NullChecksPrecedeLookups(args: CompositionArgs, super: LocatableConstructor)
    requires super(args.base).Some? && super(args.base).value.isArchetypeRoot
    requires args.content != Some([])
    ensures args.category.None? ==> Create(args, super) == Err(NullCategory)
    ensures args.category.Some? && args.territory.None? ==> Create(args, super) == Err(NullTerritory)
    ensures args.category.Some? && args.territory.Some? && args.terminologyService.None? ==>
      Create(args, super) == Err(NullTerminologyService)
    ensures args.category.None? || args.territory.None? || args.terminologyService.None? ==>
      Create(args, super) != Err(UnknownCategory) && Create(args, super) != Err(UnknownTerritory)
  {
  }

  /** With every earlier check passed, the category lookup comes before the
      territory lookup, and passing both means success. */
  lemma LookupsDecideTheRest(args: CompositionArgs, super: LocatableConstructor)
    requires super(args.base).Some? && super(args.base).value.isArchetypeRoot
    requires args.content != Some([])
    requires args.category.Some? && args.territory.Some? && args.terminologyService.Some?
    ensures var service := args.terminologyService.value;
      var categoryKnown := service.openEhrHasCodeForGroupName(args.category.value.definingCode, CompositionCategoryGroup, CategoryLanguage);
      var territoryKnown := service.codeSetHas(CountriesCodeSet, args.territory.value);
      && (!categoryKnown ==> Create(args, super) == Err(UnknownCategory))
      && (categoryKnown && !territoryKnown ==> Create(args, super) == Err(UnknownTerritory))
      && (categoryKnown && territoryKnown <==> Create(args, super).Ok?)
  {
  }

  /** On success the accessors give back exactly the arguments, the
      Composition is not persistent, and its invariants hold when the
      constructor returns. */
  lemma CreateCapturesArguments(args: CompositionArgs, super: LocatableConstructor, c: Composition)
    requires Create(args, super) == Ok(c)
    ensures Some(c.locatable) == super(args.base)
    ensures GetContent(c) == args.content
    ensures GetContext(c) == args.context
    ensures Some(GetCategory(c)) == args.category
    ensures Some(GetTerritory(c)) == args.territory
    ensures !IsPersistent(c)
    ensures args.terminologyService.Some? && Valid(c, args.terminologyService.value)
  {
  }

  // ---------------------------------------------------------------------
  // Path lookup
  // ---------------------------------------------------------------------

  /** An item the base class resolves is returned unchanged. */
  lemma BaseResolutionWins(c: Composition, path: string)
    requires c.locatable.itemAtPath(path).Some?
    ensures ItemAtPath(c, path) == Ok(c.locatable.itemAtPath(path).value)
  {
  }

  /** Otherwise the path, relative to this node's own path when it starts
      with it, is looked up in content; a miss is an invalid-path error
      naming the path as given. */
  lemma ContentLookupDecides(c: Composition, path: string)
    requires c.locatable.itemAtPath(path).None?
    ensures var found := c.locatable.checkAttribute(RelativeToWhole(c.locatable.whole, path), ContentAttribute, c.content);
      && (found.Some? ==> ItemAtPath(c, path) == Ok(found.value))
      && (found.None? ==> ItemAtPath(c, path) == Err(InvalidPath(path)))
  {
  }

  /** Taking the own path off the front keeps exactly what follows it; a path
      that does not start with it is kept whole. A plain sequence identity,
      kept as a reading aid for ContentLookupDecides and OwnPathIsStripped. */
  lemma RelativeToWholeRestores(whole: string, path: string)
    ensures whole <= path ==> whole + RelativeToWhole(whole, path) == path
    ensures !(whole <= path) ==> RelativeToWhole(whole, path) == path
  {
  }

  /** A path written as this node's own path followed by q is looked up in
      content as q. */
  lemma OwnPathIsStripped(c: Composition, q: string)
    requires c.locatable.itemAtPath(c.locatable.whole + q).None?
    ensures var found := c.locatable.checkAttribute(q, ContentAttribute, c.content);
      ItemAtPath(c, c.locatable.whole + q) == if found.Some? then Ok(found.value) else Err(InvalidPath(c.locatable.whole + q))
  {
  }

  /** validPath is true exactly when itemAtPath returns, and false exactly
      when it throws its invalid-path error. The first clause is ValidPath's
      definition; the substantive clauses are the other two: the only error is
      the invalid-path error, and, in terms of the base class, a path is valid
      when the base or the content lookup finds something. */
  lemma ValidPathIffItemAtPathReturns(c: Composition, path: string)
    ensures ValidPath(c, path) <==> ItemAtPath(c, path).Ok?
    ensures !ValidPath(c, path) <==> ItemAtPath(c, path) == Err(InvalidPath(path))
    ensures ValidPath(c, path) <==>
      || c.locatable.itemAtPath(path).Some?
      || c.locatable.checkAttribute(RelativeToWhole(c.locatable.whole, path), ContentAttribute, c.content).Some?
  {
  }

  // ---------------------------------------------------------------------
  // Helpers
  // ---------------------------------------------------------------------

  /** Rank numbers the rules one to one. */
  lemma RankInjective(e: ConstructionError, f: ConstructionError)
    requires Rank(e) == Rank(f)
    ensures e == f
  {
  }

  /** A failure names a broken rule, and success means none is broken. */
  lemma FailureReportsBrokenRule(args: CompositionArgs, super: LocatableConstructor) returns (reported: Option<ConstructionError>)
    ensures reported.None? <==> Create(args, super).Ok?
    ensures reported.Some? ==> Create(args, super) == Err(reported.value) && Violates(args, super, reported.value)
    ensures Create(args, super).Ok? ==> forall e :: !Violates(args, super, e)
  {
    reported := if Create(args, super).Ok? then None else Some(Create(args, super).error);
  }

  /** When the constructor fails for rule e, every earlier rule held. */
  lemma EarlierCheckPassed(args: CompositionArgs, super: LocatableConstructor, e: ConstructionError, e': ConstructionError)
    requires Create(args, super) == Err(e)
    requires Rank(e') < Rank(e)
    ensures !Violates(args, super, e')
  {
  }
}
