/**
 * The decision `monitor` (infra.py) makes for each new connection: which rule
 * table, if any, the remote end matches (black before white, each by IP, port
 * and hostname keyword in a fixed order), where the report goes, and the
 * reason column printed in front of it.
 */
module Classifier {
  import opened Wrappers
  import opened Display
  import opened Rules

  /** Python's `k in s` on strings: `k` occurs in `s`; the empty string occurs in every string. */
  predicate IsSubstring(k: string, s: string)
    decreases |s|
  {
    (|k| <= |s| && s[..|k|] == k) || (s != [] && IsSubstring(k, s[1..]))
  }

  /** `k` occurs in `s` when it stands at some position of `s`. */
  lemma {:induction false} SubstringAt(k: string, s: string, i: nat)
    requires i + |k| <= |s| && s[i..i + |k|] == k
    ensures IsSubstring(k, s)
    decreases i
  {
    if i > 0 {
      assert s[1..][i - 1..i - 1 + |k|] == s[i..i + |k|];
      SubstringAt(k, s[1..], i - 1);
    }
  }

  /** Some keyword of the table occurs in `text`. */
  predicate KeywordHit(keywords: seq<(string, string)>, text: string)
  {
    exists j :: 0 <= j < |keywords| && IsSubstring(keywords[j].0, text)
  }

  /**
   * The position of the first keyword, in table order, that occurs in `text`:
   * the entry the source's `for k, v in ...items()` loop stops at.
   */
  function FirstMatch(keywords: seq<(string, string)>, text: string): (r: Option<nat>)
    ensures r.Some? ==> r.value < |keywords| && IsSubstring(keywords[r.value].0, text)
    ensures r.Some? ==> forall j :: 0 <= j < r.value ==> !IsSubstring(keywords[j].0, text)
    ensures r.None? <==> !KeywordHit(keywords, text)
  {
    if keywords == [] then None
    else if IsSubstring(keywords[0].0, text) then Some(0)
    else match FirstMatch(keywords[1..], text)
      case None =>
        assert forall j :: 1 <= j < |keywords| ==> keywords[j] == keywords[1..][j - 1];
        None
      case Some(i) => Some(i + 1)
  }

  /** The reason code printed in parentheses in front of a report. */
  datatype Reason = BlackIp | BlackPort | BlackKeyword | WhiteIp | WhiteKeyword | WhitePort | NoReason

  function ReasonText(r: Reason): string
  {
    match r
    case BlackIp => "BL-IP"
    case BlackPort => "BL-Port"
    case BlackKeyword => "BL-Key"
    case WhiteIp => "WL-IP"
    case WhiteKeyword => "WL-Key"
    case WhitePort => "WL-Port"
    case NoReason => ""
  }

  /** The four variables `label, reason, is_black, is_white` after the decision. */
  datatype Verdict = Verdict(ruleLabel: string, reason: Reason, isBlack: bool, isWhite: bool)

  const Unclassified := Verdict("", NoReason, false, false)

  /** Some black rule matches: the IP, the port, or a keyword occurring in the lowercased host name. */
  predicate BlackHit(lower: string -> string, ip: string, port: int, host: string, black: Config)
  {
    ip in black.ips || port in black.ports || KeywordHit(black.keywords, lower(host))
  }

  /** Some white rule matches; a white port rule never matches port 443. */
  predicate WhiteHit(lower: string -> string, ip: string, port: int, host: string, white: Config)
  {
    ip in white.ips || KeywordHit(white.keywords, lower(host)) || (port in white.ports && port != 443)
  }

  /**
   * Classifies the remote end `ip:port`, whose reverse-DNS name is `host`.
   * Black rules are tried first (IP, port, keyword); white rules only when no
   * black rule matched (IP, keyword, port other than 443).
   */
  function Classify(lower: string -> string, ip: string, port: int, host: string, black: Config, white: Config): (v: Verdict)
    ensures v.isBlack <==> BlackHit(lower, ip, port, host, black)
    ensures v.isWhite <==> !BlackHit(lower, ip, port, host, black) && WhiteHit(lower, ip, port, host, white)
  {
    var h := lower(host);
    if ip in black.ips then Verdict(black.ips[ip], BlackIp, true, false)
    else if port in black.ports then Verdict(black.ports[port], BlackPort, true, false)
    else match FirstMatch(black.keywords, h)
      case Some(i) => Verdict(black.keywords[i].1, BlackKeyword, true, false)
      case None =>
        if ip in white.ips then Verdict(white.ips[ip], WhiteIp, false, true)
        else match FirstMatch(white.keywords, h)
          case Some(i) => Verdict(white.keywords[i].1, WhiteKeyword, false, true)
          case None =>
            if port in white.ports && port != 443 then Verdict(white.ports[port], WhitePort, false, true)
            else Unclassified
  }

  /** The reason code agrees with the flags, and an unclassified connection has an empty label and reason. */
  lemma ClassifyReasonAgrees(lower: string -> string, ip: string, port: int, host: string, black: Config, white: Config)
    ensures var v := Classify(lower, ip, port, host, black, white);
            !(v.isBlack && v.isWhite) &&
            (v.isBlack <==> v.reason in {BlackIp, BlackPort, BlackKeyword}) &&
            (v.isWhite <==> v.reason in {WhiteIp, WhiteKeyword, WhitePort}) &&
            (!v.isBlack && !v.isWhite ==> v == Unclassified)
  {
  }

  /** A black IP decides on its own: its label, reason BL-IP, whatever the port, host or white rules say. */
  lemma ClassifyBlackIp(lower: string -> string, ip: string, port: int, host: string, black: Config, white: Config)
    requires ip in black.ips
    ensures Classify(lower, ip, port, host, black, white) == Verdict(black.ips[ip], BlackIp, true, false)
  {
  }

  /** Next comes a black port. */
  lemma ClassifyBlackPort(lower: string -> string, ip: string, port: int, host: string, black: Config, white: Config)
    requires ip !in black.ips && port in black.ports
    ensures Classify(lower, ip, port, host, black, white) == Verdict(black.ports[port], BlackPort, true, false)
  {
  }

  /** Then the first black keyword, in table order, that occurs in the lowercased host name. */
  lemma ClassifyBlackKeyword(lower: string -> string, ip: string, port: int, host: string, black: Config, white: Config, i: nat)
    requires ip !in black.ips && port !in black.ports
    requires i < |black.keywords| && IsSubstring(black.keywords[i].0, lower(host))
    requires forall j :: 0 <= j < i ==> !IsSubstring(black.keywords[j].0, lower(host))
    ensures Classify(lower, ip, port, host, black, white) == Verdict(black.keywords[i].1, BlackKeyword, true, false)
  {
  }

  /** With no black match, a white IP decides. */
  lemma ClassifyWhiteIp(lower: string -> string, ip: string, port: int, host: string, black: Config, white: Config)
    requires !BlackHit(lower, ip, port, host, black) && ip in white.ips
    ensures Classify(lower, ip, port, host, black, white) == Verdict(white.ips[ip], WhiteIp, false, true)
  {
  }

  /** Next, the first white keyword in table order that occurs in the lowercased host name. */
  lemma ClassifyWhiteKeyword(lower: string -> string, ip: string, port: int, host: string, black: Config, white: Config, i: nat)
    requires !BlackHit(lower, ip, port, host, black) && ip !in white.ips
    requires i < |white.keywords| && IsSubstring(white.keywords[i].0, lower(host))
    requires forall j :: 0 <= j < i ==> !IsSubstring(white.keywords[j].0, lower(host))
    ensures Classify(lower, ip, port, host, black, white) == Verdict(white.keywords[i].1, WhiteKeyword, false, true)
  {
  }

  /** Last, a white port, except 443. */
  lemma ClassifyWhitePort(lower: string -> string, ip: string, port: int, host: string, black: Config, white: Config)
    requires !BlackHit(lower, ip, port, host, black) && ip !in white.ips
    requires !KeywordHit(white.keywords, lower(host))
    ensures Classify(lower, ip, port, host, black, white) ==
              if port in white.ports && port != 443 then Verdict(white.ports[port], WhitePort, false, true)
              else Unclassified
  {
    assert FirstMatch(white.keywords, lower(host)).None?;
  }

  /** Port 443 never matches a white port rule. */
  lemma Port443NeverWhitePort(lower: string -> string, ip: string, host: string, black: Config, white: Config)
    ensures Classify(lower, ip, 443, host, black, white).reason != WhitePort
  {
  }

  /** Where the report of a connection goes (`log_to_tab` target and tag). */
  datatype Sink =
    | AlertBlacklist               // alert tab, tag "blacklist", banner 【！BLACK！】
    | Normal(unregistered: bool)   // normal tab, tag "unregistered" when set
    | AlertUnknown                 // alert tab, banner !!UNKNOWN!!

  function Route(v: Verdict, port: int): Sink
  {
    if v.isBlack then AlertBlacklist
    else if v.isWhite || port == 443 then Normal(!v.isWhite && port == 443)
    else AlertUnknown
  }

  /**
   * The sink of a classified connection, in terms of the rules alone: black
   * matches go to the blacklist alert, white matches to the normal tab,
   * unmatched port-443 traffic to the normal tab as unregistered, and
   * everything else to the unknown alert.
   */
  lemma RouteOfClassify(lower: string -> string, ip: string, port: int, host: string, black: Config, white: Config)
    ensures var s := Route(Classify(lower, ip, port, host, black, white), port);
            var b := BlackHit(lower, ip, port, host, black);
            var w := WhiteHit(lower, ip, port, host, white);
            (s == AlertBlacklist <==> b) &&
            (s == Normal(false) <==> !b && w) &&
            (s == Normal(true) <==> !b && !w && port == 443) &&
            (s == AlertUnknown <==> !b && !w && port != 443)
  {
  }

  /** The reason column for a probable web connection: 12 columns, no reason code. */
  const WebPrefix: string := "??WEB??     "

  /** Neither black nor white, on port 443. */
  predicate IsWeb(v: Verdict, port: int)
  {
    !v.isBlack && !v.isWhite && port == 443
  }

  /** The reason column: `??WEB??` for probable web traffic, else the reason code in parentheses, fitted to 12 columns. */
  function Prefix(wide: char -> bool, v: Verdict, port: int): string
  {
    if IsWeb(v, port) then WebPrefix else SliceAndFill(wide, "(" + ReasonText(v.reason) + ")", 12)
  }

  /** The `??WEB??` column is shown exactly for the reports filed as unregistered in the normal tab. */
  lemma WebPrefixIffUnregistered(wide: char -> bool, v: Verdict, port: int)
    ensures Prefix(wide, v, port) == WebPrefix <==> Route(v, port) == Normal(true)
  {
    if !IsWeb(v, port) {
      var text := "(" + ReasonText(v.reason) + ")";
      SliceAndFillShape(wide, text, 12);
      var k := FitPrefix(wide, text, 11);
      assert k >= 1;
      assert Prefix(wide, v, port)[0] == '(';
    }
  }

  /** Printable ASCII characters take one column each, as they do in Unicode's East Asian Width table. */
  predicate NarrowAscii(wide: char -> bool)
  {
    forall c: char :: ' ' <= c <= '~' ==> !wide(c)
  }

  /** The reason column is always exactly 12 columns wide. */
  lemma PrefixWidth(wide: char -> bool, v: Verdict, port: int)
    requires NarrowAscii(wide)
    ensures DisplayWidth(wide, Prefix(wide, v, port)) == 12
  {
    if IsWeb(v, port) {
      NarrowWidth(wide, WebPrefix);
    } else {
      SliceAndFillWidth(wide, "(" + ReasonText(v.reason) + ")", 12);
    }
  }

  /** A black keyword matches whatever the case of the host name: "MAIL.EXAMPLE.COM" contains "example". */
  lemma KeywordMatchIgnoresCase(lower: string -> string, white: Config)
    requires lower("MAIL.EXAMPLE.COM") == "mail.example.com"
    ensures Classify(lower, "192.0.2.7", 25, "MAIL.EXAMPLE.COM",
                     Config([("example", "spam-relay")], map[], map[]), white)
            == Verdict("spam-relay", BlackKeyword, true, false)
  {
    var h := lower("MAIL.EXAMPLE.COM");
    assert h[5..12] == "example";
    SubstringAt("example", h, 5);
  }

  /** With the IP in both tables the black rule wins, whatever the port and host. */
  lemma BlackIpBeatsWhiteIp(lower: string -> string, ip: string, port: int, host: string, black: Config, white: Config)
    requires ip in black.ips && ip in white.ips
    ensures Classify(lower, ip, port, host, black, white) == Verdict(black.ips[ip], BlackIp, true, false)
  {
  }
}
