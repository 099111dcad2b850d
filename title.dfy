/** `updateTitleWithIpAddress`: the action-bar title `QuineOS (u0_a<uid>@<ip>)`.
    In `termuxUid ?: lookup.uid % 10000` the elvis operator binds looser than `%`,
    so a uid that is passed in is printed as it is and only the looked-up uid is
    reduced modulo 10000. */
module Title {
  import opened Wrappers
  import opened KotlinInt
  import opened Decimal
  import opened Text
  import opened Ipv4

  const Prefix: string := "QuineOS (u0_a"
  const UidModulus: int := 10000

  /** The number printed after `u0_a`. `lookedUpUid` is what
      `getApplicationInfo("com.termux", 0).uid` returns. */
  function ShownUid(termuxUid: Option<Int32>, lookedUpUid: Int32): int
  {
    match termuxUid
    case Some(u) => u
    case None => Rem(lookedUpUid, UidModulus)
  }

  function TitleText(uid: int, ipText: string): string
  {
    Prefix + IntToString(uid) + "@" + ipText + ")"
  }

  /** The title set by `updateTitleWithIpAddress(termuxUid)` when the Wi-Fi
      service reports the packed address `ip`. */
  function UpdatedTitle(termuxUid: Option<Int32>, lookedUpUid: Int32, ip: Int32): string
  {
    TitleText(ShownUid(termuxUid, lookedUpUid), FormatIp(ip))
  }

  datatype TitleParts = TitleParts(uid: int, ipText: string)

  /** Reads a title back: the prefix, then the text up to the closing parenthesis. */
  function ParseTitle(t: string): Option<TitleParts>
  {
    if |t| > |Prefix| && t[..|Prefix|] == Prefix && t[|t| - 1] == ')' then
      ParseTitleBody(t[|Prefix|..|t| - 1])
    else None
  }

  /** The part between the prefix and the closing parenthesis: the uid up to the
      first `@`, then the address text. */
  function ParseTitleBody(body: string): Option<TitleParts>
  {
    if '@' in body then
      var i := IndexOf(body, '@');
      match ParseInt(body[..i])
      case Some(u) => Some(TitleParts(u, body[i + 1..]))
      case None => None
    else None
  }

  /** The body of a title reads back as its uid and address text. */
  lemma ParseTitleBodyText(uid: int, ipText: string)
    ensures ParseTitleBody(IntToString(uid) + ['@'] + ipText) == Some(TitleParts(uid, ipText))
  {
    var digits := IntToString(uid);
    var body := digits + ['@'] + ipText;
    IntToStringChars(uid, '@');
    IndexOfAfter(digits, '@', ipText);
    assert body[..|digits|] == digits;
    assert body[|digits| + 1..] == ipText;
    ParseIntToString(uid);
  }

  /** Stripping the prefix and the closing parenthesis leaves the body. */
  lemma ParseTitleFrame(body: string)
    ensures ParseTitle(Prefix + body + ")") == ParseTitleBody(body)
  {
    var t := Prefix + body + ")";
    assert t[..|Prefix|] == Prefix;
    assert t[|Prefix|..|t| - 1] == body;
  }

  /** Every title reads back as the uid and address text it was built from. */
  lemma ParseTitleText(uid: int, ipText: string)
    ensures ParseTitle(TitleText(uid, ipText)) == Some(TitleParts(uid, ipText))
  {
    var body := IntToString(uid) + ['@'] + ipText;
    assert TitleText(uid, ipText) == Prefix + body + ")";
    ParseTitleFrame(body);
    ParseTitleBodyText(uid, ipText);
  }

  /** A uid passed in is shown unchanged, not reduced, and the address text reads
      back as the reported address. */
  lemma SuppliedUidUnchanged(u: Int32, lookedUpUid: Int32, ip: Int32)
    ensures ParseTitle(UpdatedTitle(Some(u), lookedUpUid, ip)) == Some(TitleParts(u, FormatIp(ip)))
    ensures ParseIp(FormatIp(ip)) == Some(ip)
  {
    ParseTitleText(u, FormatIp(ip));
    ParseFormatIp(ip);
  }

  /** Without a uid the looked-up one is shown modulo 10000 (truncating, so a
      negative uid keeps its sign), and the address text reads back as `ip`. */
  lemma FallbackUidReduced(lookedUpUid: Int32, ip: Int32)
    ensures ParseTitle(UpdatedTitle(None, lookedUpUid, ip)) == Some(TitleParts(Rem(lookedUpUid, UidModulus), FormatIp(ip)))
    ensures -UidModulus < Rem(lookedUpUid, UidModulus) < UidModulus
    ensures lookedUpUid >= 0 ==> Rem(lookedUpUid, UidModulus) == lookedUpUid % UidModulus
    ensures ParseIp(FormatIp(ip)) == Some(ip)
  {
    ParseTitleText(Rem(lookedUpUid, UidModulus), FormatIp(ip));
    ParseFormatIp(ip);
  }

  /** The two ways of building the title disagree for an app uid of 10000 or more:
      passing the uid prints it whole while the fallback lookup prints its last four
      digits, so the title changes when the periodic refresh first runs. */
  lemma SuppliedAndLookedUpDiffer(uid: Int32, ip: Int32)
    requires uid >= UidModulus
    ensures UpdatedTitle(Some(uid), uid, ip) != UpdatedTitle(None, uid, ip)
  {
    SuppliedUidUnchanged(uid, uid, ip);
    FallbackUidReduced(uid, ip);
  }
}
