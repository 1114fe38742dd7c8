/**
 * The SAML 2.0 identifiers the filter uses: the NameID formats of section 8.3 and the
 * attribute name formats of section 8.2 of SAML 2.0 Core, the SOAP binding of section 3.2
 * of SAML 2.0 Bindings, and the eduPersonPrincipalName attribute OID.
 */
module Saml {

  const NameIdUnspecified := "urn:oasis:names:tc:SAML:1.1:nameid-format:unspecified"
  const NameIdPersistent := "urn:oasis:names:tc:SAML:2.0:nameid-format:persistent"
  const NameIdTransient := "urn:oasis:names:tc:SAML:2.0:nameid-format:transient"
  const NameIdEncrypted := "urn:oasis:names:tc:SAML:2.0:nameid-format:encrypted"

  const NameFormatUnspecified := "urn:oasis:names:tc:SAML:2.0:attrname-format:unspecified"
  const NameFormatUri := "urn:oasis:names:tc:SAML:2.0:attrname-format:uri"
  const NameFormatBasic := "urn:oasis:names:tc:SAML:2.0:attrname-format:basic"

  const BindingSoap := "urn:oasis:names:tc:SAML:2.0:bindings:SOAP"

  const EduPersonPrincipalName := "urn:oid:1.3.6.1.4.1.5923.1.1.1.6"
}
