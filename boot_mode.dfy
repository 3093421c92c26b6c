/** The boot-mode decision of the R-Car TA authenticator (get_auth_mode),
    as a function of the ROM GetLcs reply and the two mode registers. */
module BootMode {
  import opened Words

  const LCS_CM: word := 0x0
  const LCS_DM: word := 0x1
  const LCS_SD: word := 0x3
  const LCS_SE: word := 0x5
  const LCS_FA: word := 0x7

  /** Bit 0 of MFIS_SOFTMDR: normal boot requested while LCS is SE. */
  const SOFTMDR_NORMAL_BIT: word := 0x0000_0001
  /** Bit 5 of RST_MODEMR: the MD5 strap. */
  const MODEMR_MD5_BIT: word := 0x0000_0020

  datatype AuthMode = SecureBoot | NormalBoot

  /** get_auth_mode: SECURE unless the lifecycle read succeeded and the
      register relevant to that lifecycle asks for normal boot. */
  function DecideAuthMode(lcsStatus: word, lcs: word, softmdr: word, modemr: word): (m: AuthMode)
    ensures lcsStatus != 0 ==> m == SecureBoot
    ensures lcsStatus == 0 && lcs == LCS_SE ==>
              (m == NormalBoot <==> softmdr & SOFTMDR_NORMAL_BIT == 1)
    ensures lcsStatus == 0 && lcs != LCS_SE ==>
              (m == NormalBoot <==> modemr & MODEMR_MD5_BIT != 0)
  {
    var authMode := SecureBoot;
    if lcsStatus == 0 then
      if lcs == LCS_SE then
        var softmd := softmdr & SOFTMDR_NORMAL_BIT;
        if softmd == 0x1 then NormalBoot else authMode
      else
        var md := (modemr & MODEMR_MD5_BIT) >> 5;
        if md != 0 then NormalBoot else authMode
    else
      authMode
  }

  /** NORMAL is reached only on register evidence, never by default. */
  lemma NormalBootNeedsEvidence(lcsStatus: word, lcs: word, softmdr: word, modemr: word)
    requires DecideAuthMode(lcsStatus, lcs, softmdr, modemr) == NormalBoot
    ensures lcsStatus == 0
    ensures lcs == LCS_SE ==> softmdr & SOFTMDR_NORMAL_BIT != 0
    ensures lcs != LCS_SE ==> modemr & MODEMR_MD5_BIT != 0
  {
  }

  /** The soft-mode register matters only in the SE lifecycle and the MD5
      strap only outside it. */
  lemma DecisionIgnoresOtherRegister(lcsStatus: word, lcs: word, softmdr: word, modemr: word,
                                     softmdr': word, modemr': word)
    ensures lcs == LCS_SE ==>
              DecideAuthMode(lcsStatus, lcs, softmdr, modemr) == DecideAuthMode(lcsStatus, lcs, softmdr, modemr')
    ensures lcs != LCS_SE ==>
              DecideAuthMode(lcsStatus, lcs, softmdr, modemr) == DecideAuthMode(lcsStatus, lcs, softmdr', modemr)
  {
  }

  /** Only bit 0 of MFIS_SOFTMDR and bit 5 of RST_MODEMR are read. */
  lemma DecisionReadsOneBitPerRegister(lcsStatus: word, lcs: word, softmdr: word, modemr: word)
    ensures DecideAuthMode(lcsStatus, lcs, softmdr, modemr)
            == DecideAuthMode(lcsStatus, lcs, softmdr & SOFTMDR_NORMAL_BIT, modemr & MODEMR_MD5_BIT)
  {
  }
}
