/** The base class Locatable, as far as a Composition uses it. Its constructor
    and the methods isArchetypeRoot, whole, itemAtPath and checkAttribute are
    defined outside this model, so they are carried as values and functions
    supplied from outside, and nothing is assumed about them. */
module Locatable {
  import opened Wrappers
  import opened RmTypes

  /** The arguments a Composition hands on to super(...); None stands for null. */
  datatype LocatableArgs = LocatableArgs(
    uid: Option<ObjectId>,
    archetypeNodeId: Option<string>,
    name: Option<DvText>,
    archetypeDetails: Option<Archetyped>,
    feederAudit: Option<FeederAudit>,
    links: Option<set<Link>>)

  /** A constructed Locatable, seen through the answers it gives:
      - isArchetypeRoot: Locatable.isArchetypeRoot()
      - whole: Locatable.whole(), the node's own path
      - itemAtPath: Locatable.itemAtPath(path), None standing for null
      - checkAttribute: Locatable.checkAttribute(path, attributeName, attribute),
        None standing for null */
  datatype Locatable = Locatable(
    isArchetypeRoot: bool,
    whole: string,
    itemAtPath: string -> Option<Item>,
    checkAttribute: (string, string, Option<seq<Section>>) -> Option<Item>)

  /** The constructor Locatable(uid, archetypeNodeId, name, archetypeDetails,
      feederAudit, links): None when it throws. */
  type LocatableConstructor = LocatableArgs -> Option<Locatable>
}
