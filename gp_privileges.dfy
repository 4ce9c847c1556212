/** Application privileges (section 11.1.2 of the GlobalPlatform Card Specification):
    three bytes of flags. Some privileges imply others: DAP Verification,
    Delegated Management, Mandated DAP Verification and Authorized Management
    imply Security Domain, and Mandated DAP Verification implies DAP
    Verification. The encoder sets the implied bits, the decoder the implied
    flags. */
module GpPrivileges {
  import opened Octets

  // Byte 1
  const PrivSecurityDomain: byte := 0x80
  const PrivDAPVerification: byte := 0x40
  const PrivDelegatedManagement: byte := 0x20
  const PrivCardLock: byte := 0x10
  const PrivCardTerminate: byte := 0x08
  const PrivCardReset: byte := 0x04
  const PrivCVMManagement: byte := 0x02
  const PrivMandatedDAPVerification: byte := 0x01
  // Byte 2
  const PrivTrustedPath: byte := 0x80
  const PrivAuthorizedManagement: byte := 0x40
  const PrivTokenManagement: byte := 0x20
  const PrivGlobalDelete: byte := 0x10
  const PrivGlobalLock: byte := 0x08
  const PrivGlobalRegistry: byte := 0x04
  const PrivFinalApplication: byte := 0x02
  const PrivGlobalService: byte := 0x01
  // Byte 3
  const PrivReceiptGeneration: byte := 0x80
  const PrivCipheredLoadFileDataBlock: byte := 0x40
  const PrivContactlessActivation: byte := 0x20
  const PrivContactlessSelfActivation: byte := 0x10
  const PrivReserved1: byte := 0x08
  const PrivReserved2: byte := 0x04
  const PrivReserved3: byte := 0x02
  const PrivReserved4: byte := 0x01

  // The privileges record is grouped by the byte each flag lives in.

  datatype FirstPrivileges = FirstPrivileges(
    securityDomain: bool,
    dapVerification: bool,            // implies securityDomain
    delegatedManagement: bool,        // implies securityDomain
    cardLock: bool,
    cardTerminate: bool,
    cardReset: bool,
    cvmManagement: bool,
    mandatedDAPVerification: bool)    // implies dapVerification and securityDomain
  {
    /** The first privilege byte; Authorized Management, a flag of the second
        byte, also sets the Security Domain bit. */
    function ToByte(authorizedManagement: bool): (out: byte)
      ensures out & PrivSecurityDomain != 0
          <==> securityDomain || dapVerification || delegatedManagement || mandatedDAPVerification || authorizedManagement
      ensures out & PrivDAPVerification != 0 <==> dapVerification || mandatedDAPVerification
      ensures out & PrivDelegatedManagement != 0 <==> delegatedManagement
      ensures out & PrivCardLock != 0 <==> cardLock
      ensures out & PrivCardTerminate != 0 <==> cardTerminate
      ensures out & PrivCardReset != 0 <==> cardReset
      ensures out & PrivCVMManagement != 0 <==> cvmManagement
      ensures out & PrivMandatedDAPVerification != 0 <==> mandatedDAPVerification
    {
      Bit(securityDomain || dapVerification || delegatedManagement || mandatedDAPVerification || authorizedManagement,
          PrivSecurityDomain)
      | Bit(dapVerification || mandatedDAPVerification, PrivDAPVerification)
      | Bit(delegatedManagement, PrivDelegatedManagement) | Bit(cardLock, PrivCardLock)
      | Bit(cardTerminate, PrivCardTerminate) | Bit(cardReset, PrivCardReset)
      | Bit(cvmManagement, PrivCVMManagement) | Bit(mandatedDAPVerification, PrivMandatedDAPVerification)
    }
  }

  datatype SecondPrivileges = SecondPrivileges(
    trustedPath: bool,
    authorizedManagement: bool,       // implies securityDomain
    tokenManagement: bool,
    globalDelete: bool,
    globalLock: bool,
    globalRegistry: bool,
    finalApplication: bool,
    globalService: bool)
  {
    /** The second privilege byte. */
    function ToByte(): (out: byte)
      ensures out & PrivTrustedPath != 0 <==> trustedPath
      ensures out & PrivAuthorizedManagement != 0 <==> authorizedManagement
      ensures out & PrivTokenManagement != 0 <==> tokenManagement
      ensures out & PrivGlobalDelete != 0 <==> globalDelete
      ensures out & PrivGlobalLock != 0 <==> globalLock
      ensures out & PrivGlobalRegistry != 0 <==> globalRegistry
      ensures out & PrivFinalApplication != 0 <==> finalApplication
      ensures out & PrivGlobalService != 0 <==> globalService
    {
      Bit(trustedPath, PrivTrustedPath) | Bit(authorizedManagement, PrivAuthorizedManagement)
      | Bit(tokenManagement, PrivTokenManagement) | Bit(globalDelete, PrivGlobalDelete)
      | Bit(globalLock, PrivGlobalLock) | Bit(globalRegistry, PrivGlobalRegistry)
      | Bit(finalApplication, PrivFinalApplication) | Bit(globalService, PrivGlobalService)
    }
  }

  datatype ThirdPrivileges = ThirdPrivileges(
    receiptGeneration: bool,
    cipheredLoadFileDataBlock: bool,
    contactlessActivation: bool,
    contactlessSelfActivation: bool,
    reserved1: bool,
    reserved2: bool,
    reserved3: bool,
    reserved4: bool)
  {
    /** The third privilege byte. */
    function ToByte(): (out: byte)
      ensures out & PrivReceiptGeneration != 0 <==> receiptGeneration
      ensures out & PrivCipheredLoadFileDataBlock != 0 <==> cipheredLoadFileDataBlock
      ensures out & PrivContactlessActivation != 0 <==> contactlessActivation
      ensures out & PrivContactlessSelfActivation != 0 <==> contactlessSelfActivation
      ensures out & PrivReserved1 != 0 <==> reserved1
      ensures out & PrivReserved2 != 0 <==> reserved2
      ensures out & PrivReserved3 != 0 <==> reserved3
      ensures out & PrivReserved4 != 0 <==> reserved4
    {
      Bit(receiptGeneration, PrivReceiptGeneration) | Bit(cipheredLoadFileDataBlock, PrivCipheredLoadFileDataBlock)
      | Bit(contactlessActivation, PrivContactlessActivation)
      | Bit(contactlessSelfActivation, PrivContactlessSelfActivation)
      | Bit(reserved1, PrivReserved1) | Bit(reserved2, PrivReserved2)
      | Bit(reserved3, PrivReserved3) | Bit(reserved4, PrivReserved4)
    }
  }

  datatype Privileges = Privileges(first: FirstPrivileges, second: SecondPrivileges, third: ThirdPrivileges)
  {
    /** Whether the flags obey the implications. */
    predicate Closed() {
      ((first.dapVerification || first.delegatedManagement || first.mandatedDAPVerification
        || second.authorizedManagement) ==> first.securityDomain)
      && (first.mandatedDAPVerification ==> first.dapVerification)
    }

    /** The flags with the implied ones added. */
    function Close(): (q: Privileges)
      ensures q.Closed()
    {
      this.(first := first.(
        securityDomain := first.securityDomain || first.dapVerification || first.delegatedManagement
                          || first.mandatedDAPVerification || second.authorizedManagement,
        dapVerification := first.dapVerification || first.mandatedDAPVerification))
    }

    /** ToBytes: each flag to its bit, byte by byte; Security Domain and DAP
        Verification also whenever a flag implies them (the implied bits are
        set exactly when the closed flags hold). */
    function ToBytes(): (out: seq<byte>)
      ensures |out| == 3
      ensures out[0] & PrivSecurityDomain != 0 <==> Close().first.securityDomain
      ensures out[0] & PrivDAPVerification != 0 <==> Close().first.dapVerification
    {
      [first.ToByte(second.authorizedManagement), second.ToByte(), third.ToByte()]
    }
  }

  /** The mask when the flag is set, else nothing. */
  function Bit(flag: bool, mask: byte): byte {
    if flag then mask else 0
  }

  /** Whether every bit of mask is set in b. */
  predicate Has(b: byte, mask: byte) {
    b & mask == mask
  }

  /** PrivilegesFromBytes: each bit to its flag; DAP Verification, Delegated
      Management, Mandated DAP Verification and Authorized Management also
      set Security Domain, and Mandated DAP Verification sets DAP Verification. */
  function PrivilegesFromBytes(b: seq<byte>): (p: Privileges)
    requires |b| == 3
    ensures p.Closed()
    ensures p.first.securityDomain
        <==> Has(b[0], PrivSecurityDomain) || Has(b[0], PrivDAPVerification) || Has(b[0], PrivDelegatedManagement)
             || Has(b[0], PrivMandatedDAPVerification) || Has(b[1], PrivAuthorizedManagement)
    ensures p.first.dapVerification <==> Has(b[0], PrivDAPVerification) || Has(b[0], PrivMandatedDAPVerification)
  {
    Privileges(FirstFromByte(b[0], Has(b[1], PrivAuthorizedManagement)), SecondFromByte(b[1]), ThirdFromByte(b[2]))
  }

  /** The flags of the first privilege byte; authorizedManagement says whether
      the second byte grants Authorized Management. */
  function FirstFromByte(b: byte, authorizedManagement: bool): FirstPrivileges {
    FirstPrivileges(
      Has(b, PrivSecurityDomain) || Has(b, PrivDAPVerification) || Has(b, PrivDelegatedManagement)
        || Has(b, PrivMandatedDAPVerification) || authorizedManagement,
      Has(b, PrivDAPVerification) || Has(b, PrivMandatedDAPVerification),
      Has(b, PrivDelegatedManagement),
      Has(b, PrivCardLock),
      Has(b, PrivCardTerminate),
      Has(b, PrivCardReset),
      Has(b, PrivCVMManagement),
      Has(b, PrivMandatedDAPVerification))
  }

  function SecondFromByte(b: byte): SecondPrivileges {
    SecondPrivileges(
      Has(b, PrivTrustedPath),
      Has(b, PrivAuthorizedManagement),
      Has(b, PrivTokenManagement),
      Has(b, PrivGlobalDelete),
      Has(b, PrivGlobalLock),
      Has(b, PrivGlobalRegistry),
      Has(b, PrivFinalApplication),
      Has(b, PrivGlobalService))
  }

  function ThirdFromByte(b: byte): ThirdPrivileges {
    ThirdPrivileges(
      Has(b, PrivReceiptGeneration),
      Has(b, PrivCipheredLoadFileDataBlock),
      Has(b, PrivContactlessActivation),
      Has(b, PrivContactlessSelfActivation),
      Has(b, PrivReserved1),
      Has(b, PrivReserved2),
      Has(b, PrivReserved3),
      Has(b, PrivReserved4))
  }

  /** Three privilege bytes with the implied bits set. */
  function CloseBytes(b: seq<byte>): (c: seq<byte>)
    requires |b| == 3
    ensures |c| == 3 && c[1] == b[1] && c[2] == b[2]
    ensures c[0] & 0x3F == b[0] & 0x3F
  {
    [ClosedFirstByte(b[0], Has(b[1], PrivAuthorizedManagement)), b[1], b[2]]
  }

  /** The first privilege byte with its implied bits set: Security Domain when
      any of b8, b7, b6, b1 is set or Authorized Management is granted, DAP
      Verification when b7 or b1 is set. */
  function ClosedFirstByte(b: byte, authorizedManagement: bool): byte {
    b | Bit(b & 0xE1 != 0 || authorizedManagement, PrivSecurityDomain) | Bit(b & 0x41 != 0, PrivDAPVerification)
  }

  /** Whether three privilege bytes already carry their implied bits. */
  predicate ClosedBytes(b: seq<byte>)
    requires |b| == 3
  {
    CloseBytes(b) == b
  }
}
