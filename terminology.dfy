/** The terminology capability a Composition consults while it is constructed.
    The code lists themselves (the openEHR groups, the ISO 3166 countries) are
    not part of this model: each lookup is a function supplied from outside. */
module Terminology {
  import opened RmTypes

  /** org.openehr.rm.support.terminology.TerminologyService, reduced to the two
      lookups a Composition makes:
      - openEhrHasCodeForGroupName(code, groupName, language):
        terminology(TerminologyService.OPENEHR).hasCodeForGroupName(code, groupName, language)
      - codeSetHas(codeSetName, code): codeSet(codeSetName).has(code) */
  datatype TerminologyService = TerminologyService(
    openEhrHasCodeForGroupName: (CodePhrase, string, string) -> bool,
    codeSetHas: (string, CodePhrase) -> bool)
}
