/** Reference-model value types that the Composition stores or passes on but
    never looks inside. They are left uninterpreted. */
module RmTypes {

  /** org.openehr.rm.support.identification.ObjectID */
  type ObjectId

  /** org.openehr.rm.datatypes.text.DvText (the name of a node) */
  type DvText

  /** org.openehr.rm.common.archetyped.Archetyped */
  type Archetyped

  /** org.openehr.rm.common.archetyped.FeederAudit */
  type FeederAudit

  /** org.openehr.rm.common.archetyped.Link */
  type Link(==)

  /** org.openehr.rm.composition.content.navigation.Section */
  type Section

  /** org.openehr.rm.composition.EventContext */
  type EventContext

  /** org.openehr.rm.datatypes.text.CodePhrase: a code in some terminology */
  type CodePhrase

  /** A node a path can reach (the Java return type Locatable of itemAtPath). */
  type Item

  /** org.openehr.rm.datatypes.text.DvCodedText: a text value with the code
      that defines it; only the defining code is consulted by a Composition. */
  datatype DvCodedText = DvCodedText(value: string, definingCode: CodePhrase)
}
