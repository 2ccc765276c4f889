/** What an installation is for: answers leave through the interface their connections came in by. The rules are
    read word by word, as the kernel reads them: addresses and masks, marks as sets of bits, priorities, and the
    firewall's rules for connection and packet marks. */
module ReturnPath {
  import opened TunHost
  import opened TunRecord
  import opened TunRecovery
  import opened NftJson
  import opened Text
  import Nft = NftRuleset
  import Ipt = MangleTable

  // ---- reading numbers, masks and addresses ----

  function HexDigit(c: char): nat
  {
    if IsDigit(c) then c as nat - '0' as nat else if 'a' <= c <= 'f' then c as nat - 'a' as nat + 10 else 0
  }

  /** The bits of a digit whose lowest is bit `at`. */
  function DigitBits(d: nat, at: nat): set<nat>
  {
    (if d % 2 == 1 then {at} else {}) + (if d / 2 % 2 == 1 then {at + 1} else {})
    + (if d / 4 % 2 == 1 then {at + 2} else {}) + if d / 8 % 2 == 1 then {at + 3} else {}
  }

  function HexBits(s: string, at: nat): set<nat>
  {
    if s == "" then {} else DigitBits(HexDigit(s[|s| - 1]), at) + HexBits(s[..|s| - 1], at + 4)
  }

  /** The bits of a mark such as 0x100. */
  function Bits(s: string): set<nat>
  {
    if "0x" <= s then HexBits(s[2..], 0) else {}
  }

  /** What comes before the first separator, and what after it. */
  function Cut(s: string, sep: char): (string, string)
  {
    if s == "" then ("", "")
    else if s[0] == sep then ("", s[1..])
    else var (before, after) := Cut(s[1..], sep); ([s[0]] + before, after)
  }

  /** A dotted address as a number. */
  function Address(s: string): nat
  {
    var (a, rest) := Cut(s, '.');
    var (b, more) := Cut(rest, '.');
    var (c, d) := Cut(more, '.');
    ((Number(a) * 256 + Number(b)) * 256 + Number(c)) * 256 + Number(d)
  }

  function Power(n: nat): (p: nat)
    ensures p >= 1
  {
    if n == 0 then 1 else 2 * Power(n - 1)
  }

  /** The address lies in the range. */
  predicate InRange(ip: nat, cidr: string)
  {
    var (base, length) := Cut(cidr, '/');
    Number(length) <= 32 && ip / Power(32 - Number(length)) == Address(base) / Power(32 - Number(length))
  }

  // ---- packets ----

  datatype Ct = New | Established | Related

  /** `mark` is the packet's own, `ctMark` that of its connection, both as the set of their bits. */
  datatype Packet = Packet(iif: string, destination: nat, ct: Ct, mark: set<nat>, ctMark: set<nat>)

  // ---- policy routing ----

  predicate Matches(s: Selector, p: Packet)
  {
    match s
    case To(cidr) => InRange(p.destination, cidr)
    case FwMark(text) =>
      var (value, mask) := Cut(text, '/');
      if mask == "" then p.mark == Bits(value) else p.mark * Bits(mask) == Bits(value)
  }

  /** The rule that decides for the packet: one that matches, and none that matches has a lower priority number. */
  ghost predicate Decides(rules: set<Rule>, p: Packet, r: Rule)
  {
    && r in rules && Matches(r.selector, p)
    && forall x | x in rules && Matches(x.selector, p) :: Number(r.pref) <= Number(x.pref)
  }

  /** 10.0.0.0/8, 172.16.0.0/12, 192.168.0.0/16 and 100.64.0.0/10. */
  predicate Private(ip: nat)
  {
    || ip / 0x100_0000 == 10
    || ip / 0x10_0000 == 172 * 16 + 1
    || ip / 0x1_0000 == 192 * 256 + 168
    || ip / 0x40_0000 == 100 * 4 + 1
  }

  /** Bit 8 is the project's. */
  const BIT: nat := 8

  lemma CutAt(before: string, sep: char, after: string)
    requires sep !in before
    ensures Cut(before + [sep] + after, sep) == (before, after)
  {
    var s := before + [sep] + after;
    if before == "" {
      assert s[1..] == after;
    } else {
      assert s[1..] == before[1..] + [sep] + after;
      CutAt(before[1..], sep, after);
      assert [before[0]] + before[1..] == before;
    }
  }

  lemma DigitAdded(s: string, c: char)
    ensures Number(s + [c]) == 10 * Number(s) + if IsDigit(c) then c as nat - '0' as nat else 0
  {
    assert (s + [c])[..|s|] == s;
  }

  lemma One(a: char)
    ensures Number([a]) == if IsDigit(a) then a as nat - '0' as nat else 0
  {
    DigitAdded("", a);
    assert "" + [a] == [a];
  }

  lemma Two(a: char, b: char)
    ensures Number([a, b]) == 10 * Number([a]) + Number([b])
  {
    DigitAdded([a], b);
    One(b);
    assert [a] + [b] == [a, b];
  }

  lemma Three(a: char, b: char, c: char)
    ensures Number([a, b, c]) == 10 * Number([a, b]) + Number([c])
  {
    DigitAdded([a, b], c);
    One(c);
    assert [a, b] + [c] == [a, b, c];
  }

  lemma Powers()
    ensures Power(24) == 0x100_0000 && Power(20) == 0x10_0000 && Power(16) == 0x1_0000 && Power(22) == 0x40_0000
  {
    assert Power(4) == 16;
    assert Power(8) == 256;
    assert Power(12) == 4096;
    assert Power(16) == 0x1_0000;
    assert Power(20) == 0x10_0000;
    assert Power(24) == 0x100_0000;
  }

  lemma AddressOf(a: string, b: string, c: string, d: string)
    requires '.' !in a && '.' !in b && '.' !in c
    ensures Address(a + "." + (b + "." + (c + "." + d)))
            == ((Number(a) * 256 + Number(b)) * 256 + Number(c)) * 256 + Number(d)
  {
    CutAt(a, '.', b + "." + (c + "." + d));
    CutAt(b, '.', c + "." + d);
    CutAt(c, '.', d);
  }

  lemma RangeOf(ip: nat, base: string, length: string)
    requires '/' !in base
    ensures InRange(ip, base + "/" + length)
            <==> Number(length) <= 32 && ip / Power(32 - Number(length)) == Address(base) / Power(32 - Number(length))
  {
    CutAt(base, '/', length);
  }

  lemma AddressTen()
    ensures Address("10.0.0.0") == 0x0A000000
  {
    hide Number, Address;
    assert "10.0.0.0" == "10" + "." + ("0" + "." + ("0" + "." + "0"));
    AddressOf("10", "0", "0", "0");
    One('1');
    One('0');
    Two('1', '0');
  }

  lemma RangeTen(ip: nat)
    ensures InRange(ip, "10.0.0.0/8") <==> ip / 0x100_0000 == 10
  {
    hide Number, Address, InRange, Power;
    assert "10.0.0.0/8" == "10.0.0.0" + "/" + "8";
    RangeOf(ip, "10.0.0.0", "8");
    AddressTen();
    One('8');
    Powers();
  }

  lemma AddressTwelve()
    ensures Address("172.16.0.0") == 0xAC100000
  {
    hide Number, Address;
    assert "172.16.0.0" == "172" + "." + ("16" + "." + ("0" + "." + "0"));
    AddressOf("172", "16", "0", "0");
    One('1');
    One('7');
    Two('1', '7');
    One('2');
    Three('1', '7', '2');
    One('6');
    Two('1', '6');
    One('0');
  }

  lemma RangeTwelve(ip: nat)
    ensures InRange(ip, "172.16.0.0/12") <==> ip / 0x10_0000 == 172 * 16 + 1
  {
    hide Number, Address, InRange, Power;
    assert "172.16.0.0/12" == "172.16.0.0" + "/" + "12";
    RangeOf(ip, "172.16.0.0", "12");
    AddressTwelve();
    One('1');
    One('2');
    Two('1', '2');
    Powers();
  }

  lemma AddressSixteen()
    ensures Address("192.168.0.0") == 0xC0A80000
  {
    hide Number, Address;
    assert "192.168.0.0" == "192" + "." + ("168" + "." + ("0" + "." + "0"));
    AddressOf("192", "168", "0", "0");
    One('1');
    One('9');
    Two('1', '9');
    One('2');
    Three('1', '9', '2');
    One('6');
    Two('1', '6');
    One('8');
    Three('1', '6', '8');
    One('0');
  }

  lemma RangeSixteen(ip: nat)
    ensures InRange(ip, "192.168.0.0/16") <==> ip / 0x1_0000 == 192 * 256 + 168
  {
    hide Number, Address, InRange, Power;
    assert "192.168.0.0/16" == "192.168.0.0" + "/" + "16";
    RangeOf(ip, "192.168.0.0", "16");
    AddressSixteen();
    One('1');
    One('6');
    Two('1', '6');
    Powers();
  }

  lemma AddressCarrier()
    ensures Address("100.64.0.0") == 0x64400000
  {
    hide Number, Address;
    assert "100.64.0.0" == "100" + "." + ("64" + "." + ("0" + "." + "0"));
    AddressOf("100", "64", "0", "0");
    One('1');
    One('0');
    Two('1', '0');
    Three('1', '0', '0');
    One('6');
    One('4');
    Two('6', '4');
  }

  lemma RangeCarrier(ip: nat)
    ensures InRange(ip, "100.64.0.0/10") <==> ip / 0x40_0000 == 100 * 4 + 1
  {
    hide Number, Address, InRange, Power;
    assert "100.64.0.0/10" == "100.64.0.0" + "/" + "10";
    RangeOf(ip, "100.64.0.0", "10");
    AddressCarrier();
    One('1');
    One('0');
    Two('1', '0');
    Powers();
  }

  lemma MarkBits()
    ensures Bits("0x100") == {BIT}
  {
    assert "0x100"[2..] == "100" && "100"[..2] == "10" && "10"[..1] == "1" && "1"[..0] == "";
    assert HexBits("", 12) == {};
    assert HexBits("1", 8) == {8};
    assert HexBits("10", 4) == {8};
    assert HexBits("100", 0) == {8};
  }

  // ---- where the added rules send a packet ----

  lemma MarkMatches(p: Packet)
    ensures Matches(FwMark("0x100/0x100"), p) <==> BIT in p.mark
  {
    assert "0x100/0x100" == "0x100" + "/" + "0x100";
    CutAt("0x100", '/', "0x100");
    MarkBits();
    assert |"0x100"| == 5;
    assert p.mark * {BIT} == {BIT} <==> BIT in p.mark;
    hide Cut, Bits;
  }

  lemma Priorities()
    ensures Number("100") == 100 && Number("200") == 200
  {
    Three('1', '0', '0');
    Three('2', '0', '0');
    Two('1', '0');
    Two('2', '0');
    One('0');
    One('1');
    One('2');
    hide Number;
  }

  /** A rule of the project's: a private range, looked up in the main table, or the mark, looked up in the
      project's table and less urgent. */
  lemma ProjectRuleMatches(x: Rule, p: Packet)
    requires x in ProjectRules() && Matches(x.selector, p)
    ensures || (Private(p.destination) && x.table == "main" && Number(x.pref) == 100)
            || (BIT in p.mark && x.table == TABLE && Number(x.pref) == 200)
  {
    RangeTen(p.destination);
    RangeTwelve(p.destination);
    RangeSixteen(p.destination);
    RangeCarrier(p.destination);
    MarkMatches(p);
    Priorities();
    hide Matches, Number, InRange, Private;
    if !x.selector.To? {
      assert x.selector == FwMark("0x100/0x100");
    } else {
      MatchesRange(x.selector.cidr, p);
      RangesArePrivate(p.destination);
    }
  }

  lemma MatchesRange(cidr: string, p: Packet)
    ensures Matches(To(cidr), p) <==> InRange(p.destination, cidr)
  {
  }

  lemma RangesArePrivate(ip: nat)
    ensures Private(ip)
            <==> || InRange(ip, "10.0.0.0/8") || InRange(ip, "172.16.0.0/12")
                 || InRange(ip, "192.168.0.0/16") || InRange(ip, "100.64.0.0/10")
  {
    RangeTen(ip);
    RangeTwelve(ip);
    RangeSixteen(ip);
    RangeCarrier(ip);
    hide InRange;
  }

  lemma SomeProjectRuleMatches(p: Packet) returns (x: Rule)
    requires Private(p.destination) || BIT in p.mark
    ensures x in ProjectRules() && Matches(x.selector, p) && (Private(p.destination) ==> Number(x.pref) == 100)
  {
    hide Matches, Number, InRange, Private;
    RangesArePrivate(p.destination);
    Priorities();
    MarkMatches(p);
    MatchesRange("10.0.0.0/8", p);
    MatchesRange("172.16.0.0/12", p);
    MatchesRange("192.168.0.0/16", p);
    MatchesRange("100.64.0.0/10", p);
    var rules := ProjectRules();
    x := if InRange(p.destination, "10.0.0.0/8") then rules[0]
         else if InRange(p.destination, "172.16.0.0/12") then rules[1]
         else if InRange(p.destination, "192.168.0.0/16") then rules[2]
         else if InRange(p.destination, "100.64.0.0/10") then rules[3]
         else rules[4];
    assert rules[4].selector == FwMark("0x100/0x100");
    assert x in rules;
  }

  ghost function AddedRules(b: Backend, r: Record, h: Host): set<Rule>
  {
    TunRecovery.Installed(b, r, h).rules - h.rules
  }

  lemma AddedAreProjectRules(b: Backend, r: Record, h: Host)
    requires IsOwnRecord(b, r) && SlotsFree(h)
    ensures AddedRules(b, r, h) == set x | x in ProjectRules()
    ensures TunRecovery.Installed(b, r, h).routes == h.routes + {DefaultRoute(r.iface, r.gateway, TABLE)}
  {
    OwnRecordPlan(b, r);
    FreeSlotsHoldNoProjectRules(h, r);
    assert (set x | x in [DefaultRoute(r.iface, r.gateway, TABLE)]) == {DefaultRoute(r.iface, r.gateway, TABLE)};
    hide CleanupPlan, ProjectRules;
  }

  /** Among the rules an installation adds, one decides for a packet exactly if it goes to a private address or
      carries the project's mark. To a private address it is looked up in the main table, mark or no mark;
      else in a table whose only route leads through the gateway and out of the interface of the record. */
  lemma AddedRulesRoute(b: Backend, r: Record, h: Host, p: Packet)
    requires IsOwnRecord(b, r) && SlotsFree(h)
    ensures (exists x :: Decides(AddedRules(b, r, h), p, x)) <==> Private(p.destination) || BIT in p.mark
    ensures forall x | Decides(AddedRules(b, r, h), p, x) ::
              if Private(p.destination) then x.table == "main"
              else forall route | route in TunRecovery.Installed(b, r, h).routes && route.table == x.table ::
                     route == Route("default", r.gateway, r.iface, x.table)
    ensures forall x | Decides(AddedRules(b, r, h), p, x) && !Private(p.destination) ::
              Route("default", r.gateway, r.iface, x.table) in TunRecovery.Installed(b, r, h).routes
  {
    AddedAreProjectRules(b, r, h);
    hide Private, Matches, Number, TunRecovery.Installed, ProjectRules, AddedRules, IsOwnRecord;
    var added := AddedRules(b, r, h);
    forall x | x in added && Matches(x.selector, p)
      ensures || (Private(p.destination) && x.table == "main" && Number(x.pref) == 100)
              || (BIT in p.mark && x.table == TABLE && Number(x.pref) == 200)
    {
      ProjectRuleMatches(x, p);
    }
    if Private(p.destination) || BIT in p.mark {
      var x := SomeProjectRuleMatches(p);
      assert Decides(added, p, x);
    }
  }

  lemma LegacyPriorities()
    ensures Number("10010") == 10010 && Number("10020") == 10020
  {
    hide Number;
    Three('1', '0', '0');
    Two('1', '0');
    One('0');
    One('1');
    One('2');
    DigitAdded("100", '1');
    DigitAdded("100", '2');
    DigitAdded("1001", '0');
    DigitAdded("1002", '0');
    assert "100" + ['1'] == "1001" && "100" + ['2'] == "1002" && "1001" + ['0'] == "10010" && "1002" + ['0'] == "10020";
  }

  lemma ExactMarkMatches(p: Packet)
    ensures Matches(FwMark("0x100"), p) <==> p.mark == {BIT}
  {
    assert '/' !in "0x100";
    CutNone("0x100", '/');
    MarkBits();
    hide Cut, Bits;
  }

  /** A record of the first release stands for rules of another kind: three private ranges only, the mark without a
      mask, another table and other priorities. */
  lemma LegacyRulesMatch(p: Packet)
    ensures var rules := LegacyPolicyRules();
            && (forall x | x in rules ::
                  (x.table == "main" && Number(x.pref) == 10010) || (x.table == "2022" && Number(x.pref) == 10020))
            && ((exists x | x in rules :: x.table == "main" && Matches(x.selector, p))
                <==> Private(p.destination) && p.destination / 0x40_0000 != 100 * 4 + 1)
            && ((exists x | x in rules :: x.table == "2022" && Matches(x.selector, p)) <==> p.mark == {BIT})
  {
    var rules := LegacyPolicyRules();
    RangeTen(p.destination);
    RangeTwelve(p.destination);
    RangeSixteen(p.destination);
    ExactMarkMatches(p);
    LegacyPriorities();
    hide Matches, Number, InRange;
    MatchesRange("10.0.0.0/8", p);
    MatchesRange("172.16.0.0/12", p);
    MatchesRange("192.168.0.0/16", p);
    assert |"main"| == 4 && "main"[0] != "2022"[0];
    assert rules[0] in rules && rules[1] in rules && rules[2] in rules && rules[3] in rules;
  }

  // ---- the firewall ----

  predicate CtNamed(name: string, ct: Ct)
  {
    match ct
    case New => name == "new" || name == "NEW"
    case Established => name == "established" || name == "ESTABLISHED"
    case Related => name == "related" || name == "RELATED"
  }

  /** One state, or two with a comma between. */
  predicate CtListed(names: string, ct: Ct)
  {
    var (one, other) := Cut(names, ',');
    CtNamed(one, ct) || CtNamed(other, ct)
  }

  /** One nft rule, statement by statement; a condition that fails ends it. */
  function NftRule(w: seq<string>, p: Packet): Packet
    decreases |w|
  {
    if |w| >= 2 && w[0] == "iifname" then
      if p.iif == w[1] then NftRule(w[2..], p) else p
    else if |w| >= 3 && w[0] == "ct" && w[1] == "state" then
      if CtListed(w[2], p.ct) then NftRule(w[3..], p) else p
    else if |w| >= 6 && w[0] == "ct" && w[1] == "mark" && w[2] == "&" && w[4] == "!=" && w[5] == "0" then
      if p.ctMark !! Bits(w[3]) then p else NftRule(w[6..], p)
    else if |w| >= 7 && Sets("ct", w) then NftRule(w[7..], p.(ctMark := p.ctMark + Bits(w[6])))
    else if |w| >= 7 && Sets("meta", w) then NftRule(w[7..], p.(mark := p.mark + Bits(w[6])))
    else p
  }

  /** `K mark set K mark | M`: puts bits into the mark of the connection or of the packet. */
  predicate Sets(kind: string, w: seq<string>)
    requires |w| >= 7
  {
    w[0] == w[3] == kind && w[1] == w[4] == "mark" && w[2] == "set" && w[5] == "|"
  }

  function Texts(expr: seq<Json>): seq<string>
  {
    seq(|expr|, i requires 0 <= i < |expr| => if expr[i].Str? then expr[i].text else "")
  }

  /** The rules of one chain, in the order of the listing. */
  function NftChain(objs: seq<Nft.Object>, loc: Nft.ChainLoc, p: Packet): Packet
  {
    if objs == [] then p
    else
      var o := objs[0];
      NftChain(objs[1..], loc, if o.RuleObject? && o.loc == loc then NftRule(Texts(o.expr), p) else p)
  }

  function HookName(hook: Ipt.Hook): string
  {
    match hook case Prerouting => "prerouting" case Output => "output" case Forward => "forward"
  }

  predicate IptHolds(w: seq<string>, p: Packet)
    decreases |w|
  {
    if |w| >= 2 && w[0] == "-i" then p.iif == w[1] && IptHolds(w[2..], p)
    else if |w| >= 2 && w[0] == "--ctstate" then CtListed(w[1], p.ct) && IptHolds(w[2..], p)
    else w == [] || (|w| >= 2 && w[0] in {"-m", "--comment"} && IptHolds(w[2..], p))
  }

  function Xor(a: set<nat>, b: set<nat>): set<nat>
  {
    (a - b) + (b - a)
  }

  /** CONNMARK: sets the mark of the connection under a mask, or copies it to the packet under two. */
  function IptAct(w: seq<string>, p: Packet): Packet
  {
    if |w| == 3 && w[..2] == ["CONNMARK", "--set-xmark"] then
      var (value, mask) := Cut(w[2], '/');
      p.(ctMark := Xor(p.ctMark - Bits(mask), Bits(value)))
    else if |w| == 6 && w[..3] == ["CONNMARK", "--restore-mark", "--nfmask"] && w[4] == "--ctmask" then
      p.(mark := Xor(p.mark - Bits(w[3]), p.ctMark * Bits(w[5])))
    else p
  }

  function IptChain(rules: seq<Ipt.IptRule>, p: Packet): Packet
  {
    if rules == [] then p
    else
      var r := rules[0];
      IptChain(rules[1..], if r.target.Action? && IptHolds(r.condition, p) then IptAct(r.target.words, p) else p)
  }

  /** Some rule of the built-in chain sends the packet to the project's. */
  predicate Enters(m: Ipt.Mangle, hook: Ipt.Hook, p: Packet)
  {
    && Ipt.BuiltIn(hook) in m && Ipt.Own(hook) in m
    && exists r | r in m[Ipt.BuiltIn(hook)] :: r.target == Ipt.Jump(Ipt.Own(hook)) && IptHolds(r.condition, p)
  }

  /** What the project's chain of a hook makes of a packet. */
  function Filter(b: Backend, h: Host, hook: Ipt.Hook, p: Packet): Packet
  {
    match b
    case NftBackend => NftChain(h.nft, Nft.OwnChain(HookName(hook)), p)
    case IptablesLegacy => if Enters(h.mangle, hook, p) then IptChain(h.mangle[Ipt.Own(hook)], p) else p
  }

  lemma Named(ct: Ct)
    ensures CtNamed("new", ct) <==> ct.New?
    ensures CtNamed("NEW", ct) <==> ct.New?
    ensures CtNamed("established", ct) || CtNamed("related", ct) <==> !ct.New?
    ensures CtNamed("ESTABLISHED", ct) || CtNamed("RELATED", ct) <==> !ct.New?
    ensures !CtNamed("", ct)
  {
    assert |"new"| == 3 && |"established"| == 11 && |"related"| == 7 && |"NEW"| == 3 && |"ESTABLISHED"| == 11;
    assert |"RELATED"| == 7 && "new"[0] == 'n' && "NEW"[0] == 'N';
  }

  lemma CtLists(ct: Ct)
    ensures CtListed("new", ct) <==> ct.New?
    ensures CtListed("NEW", ct) <==> ct.New?
    ensures CtListed("established,related", ct) <==> !ct.New?
    ensures CtListed("ESTABLISHED,RELATED", ct) <==> !ct.New?
  {
    hide Cut, CtNamed;
    Named(ct);
    CutNone("new", ',');
    CutNone("NEW", ',');
    assert "established,related" == "established" + "," + "related";
    assert "ESTABLISHED,RELATED" == "ESTABLISHED" + "," + "RELATED";
    CutAt("established", ',', "related");
    CutAt("ESTABLISHED", ',', "RELATED");
  }

  lemma {:induction false} CutNone(s: string, sep: char)
    requires sep !in s
    ensures Cut(s, sep) == (s, "")
  {
    if s != "" {
      CutNone(s[1..], sep);
      assert [s[0]] + s[1..] == s;
    }
  }

  // ---- the rules of the nft script ----

  lemma WordsDiffer()
    ensures |"iifname"| == 7 && |"ct"| == 2 && |"meta"| == 4 && |"state"| == 5 && |"mark"| == 4 && |"set"| == 3 && |"&"| == 1
  {
  }

  lemma SetsMeta(p: Packet)
    ensures NftRule(["meta", "mark", "set", "meta", "mark", "|", "0x100"], p) == p.(mark := p.mark + {BIT})
  {
    hide Bits;
    WordsDiffer();
    MarkBits();
    var w := ["meta", "mark", "set", "meta", "mark", "|", "0x100"];
    assert w[7..] == [] && NftRule([], p.(mark := p.mark + {BIT})) == p.(mark := p.mark + {BIT});
  }

  lemma SetsConnection(p: Packet)
    ensures NftRule(["ct", "mark", "set", "ct", "mark", "|", "0x100"], p) == p.(ctMark := p.ctMark + {BIT})
  {
    hide Bits;
    WordsDiffer();
    MarkBits();
    var w := ["ct", "mark", "set", "ct", "mark", "|", "0x100"];
    assert w[7..] == [] && NftRule([], p.(ctMark := p.ctMark + {BIT})) == p.(ctMark := p.ctMark + {BIT});
  }

  lemma TestsConnection(rest: seq<string>, p: Packet)
    ensures NftRule(["ct", "mark", "&", "0x100", "!=", "0"] + rest, p) == if BIT in p.ctMark then NftRule(rest, p) else p
  {
    hide Bits;
    WordsDiffer();
    MarkBits();
    var w := ["ct", "mark", "&", "0x100", "!=", "0"] + rest;
    assert w[6..] == rest;
  }

  lemma TestsState(states: string, rest: seq<string>, p: Packet)
    ensures NftRule(["ct", "state", states] + rest, p) == if CtListed(states, p.ct) then NftRule(rest, p) else p
  {
    hide CtListed;
    WordsDiffer();
    var w := ["ct", "state", states] + rest;
    assert w[3..] == rest;
  }

  lemma RestoreRule(p: Packet)
    ensures NftRule(Nft.RESTORE_MARK, p)
            == if !p.ct.New? && BIT in p.ctMark then p.(mark := p.mark + {BIT}) else p
  {
    hide CtListed, NftRule;
    var last := ["meta", "mark", "set", "meta", "mark", "|", "0x100"];
    var test := ["ct", "mark", "&", "0x100", "!=", "0"] + last;
    assert Nft.RESTORE_MARK == ["ct", "state", "established,related"] + test;
    CtLists(p.ct);
    TestsState("established,related", test, p);
    TestsConnection(last, p);
    SetsMeta(p);
  }

  lemma NewRule(iface: string, p: Packet)
    ensures NftRule(["iifname", iface] + Nft.MARK_NEW, p)
            == if p.iif == iface && p.ct.New? then p.(ctMark := p.ctMark + {BIT}) else p
  {
    hide CtListed;
    var w := ["iifname", iface] + Nft.MARK_NEW;
    var last := ["ct", "mark", "set", "ct", "mark", "|", "0x100"];
    assert w[2..] == Nft.MARK_NEW == ["ct", "state", "new"] + last;
    CtLists(p.ct);
    TestsState("new", last, p);
    SetsConnection(p);
  }

  lemma TextsOfWords(w: seq<string>)
    ensures Texts(Nft.Words(w)) == w
  {
  }

  lemma {:induction false} ChainAppend(a: seq<Nft.Object>, b: seq<Nft.Object>, loc: Nft.ChainLoc, p: Packet)
    ensures NftChain(a + b, loc, p) == NftChain(b, loc, NftChain(a, loc, p))
    decreases |a|
  {
    hide NftRule, Texts;
    if a == [] {
      assert a + b == b;
    } else {
      assert (a + b)[1..] == a[1..] + b;
      var o := a[0];
      ChainAppend(a[1..], b, loc, if o.RuleObject? && o.loc == loc then NftRule(Texts(o.expr), p) else p);
    }
  }

  lemma {:induction false} ChainElsewhere(objs: seq<Nft.Object>, loc: Nft.ChainLoc, p: Packet)
    requires forall o | o in objs && o.RuleObject? :: o.loc != loc
    ensures NftChain(objs, loc, p) == p
  {
    if objs != [] {
      ChainElsewhere(objs[1..], loc, p);
    }
  }

  lemma {:induction false} ChainOne(o: Nft.Object, loc: Nft.ChainLoc, p: Packet)
    ensures NftChain([o], loc, p) == if o.RuleObject? && o.loc == loc then NftRule(Texts(o.expr), p) else p
  {
    var none: seq<Nft.Object> := [];
    var q := if o.RuleObject? && o.loc == loc then NftRule(Texts(o.expr), p) else p;
    assert [o][1..] == none && NftChain(none, loc, q) == q;
  }

  /** The mark a packet and its connection have after the project's chain. */
  function Marked(iface: string, hook: Ipt.Hook, p: Packet): Packet
  {
    if p.ct.New? then
      if hook == Ipt.Prerouting && p.iif == iface then p.(ctMark := p.ctMark + {BIT}) else p
    else if BIT in p.ctMark then p.(mark := p.mark + {BIT})
    else p
  }

  lemma ScriptMarks(iface: string, comment: string, n: nat, hook: Ipt.Hook, p: Packet)
    ensures NftChain(Nft.ScriptRules(iface, comment, n), Nft.OwnChain(HookName(hook)), p) == Marked(iface, hook, p)
  {
    hide NftRule, Texts, NftChain;
    var rules, loc := Nft.ScriptRules(iface, comment, n), Nft.OwnChain(HookName(hook));
    assert |"prerouting"| == 10 && |"output"| == 6 && |"forward"| == 7;
    var a, b, c, d := rules[0], rules[1], rules[2], rules[3];
    assert rules == [a] + ([b] + ([c] + [d]));
    TextsOfWords(["iifname", iface] + Nft.MARK_NEW);
    TextsOfWords(Nft.RESTORE_MARK);
    var p1 := NftChain([a], loc, p);
    var p2 := NftChain([b], loc, p1);
    var p3 := NftChain([c], loc, p2);
    ChainAppend([a], [b] + ([c] + [d]), loc, p);
    ChainAppend([b], [c] + [d], loc, p1);
    ChainAppend([c], [d], loc, p2);
    ChainOne(a, loc, p);
    ChainOne(b, loc, p1);
    ChainOne(c, loc, p2);
    ChainOne(d, loc, p3);
    NewRule(iface, p);
    RestoreRule(p);
    RestoreRule(p1);
    RestoreRule(p2);
    RestoreRule(p3);
  }

  lemma NftMarks(objs: seq<Nft.Object>, iface: string, comment: string, hook: Ipt.Hook, p: Packet)
    requires Nft.NoOwnTable(objs)
    ensures NftChain(Nft.RunScript(objs, iface, comment), Nft.OwnChain(HookName(hook)), p) == Marked(iface, hook, p)
  {
    hide Nft.ScriptRules, Marked, NftChain;
    var loc := Nft.OwnChain(HookName(hook));
    var chains := Nft.IfAbsent(objs, Nft.OWN_TABLE)
                  + Nft.IfAbsent(objs, Nft.ChainObject(Nft.OwnChain("prerouting")))
                  + Nft.IfAbsent(objs, Nft.ChainObject(Nft.OwnChain("output")))
                  + Nft.IfAbsent(objs, Nft.ChainObject(Nft.OwnChain("forward")));
    var rules := Nft.ScriptRules(iface, comment, Nft.MaxHandle(objs));
    assert Nft.RunScript(objs, iface, comment) == objs + (chains + rules);
    ChainAppend(objs, chains + rules, loc, p);
    ChainElsewhere(objs, loc, p);
    ChainAppend(chains, rules, loc, p);
    ChainElsewhere(chains, loc, p);
    ScriptMarks(iface, comment, Nft.MaxHandle(objs), hook, p);
  }

  // ---- the rules of the iptables chains ----

  lemma CommentHolds(p: Packet)
    ensures IptHolds(Ipt.COMMENT, p)
  {
    var w := Ipt.COMMENT;
    assert w[2..] == ["--comment", "mihomo-tui"] && w[2..][2..] == [];
  }

  lemma StateHolds(states: string, p: Packet)
    ensures IptHolds(["-m", "conntrack", "--ctstate", states] + Ipt.COMMENT, p) <==> CtListed(states, p.ct)
  {
    hide CtListed;
    CommentHolds(p);
    var w := ["-m", "conntrack", "--ctstate", states] + Ipt.COMMENT;
    assert w[2..] == ["--ctstate", states] + Ipt.COMMENT && w[2..][2..] == Ipt.COMMENT;
  }

  lemma InterfaceHolds(iface: string, p: Packet)
    ensures IptHolds(["-i", iface, "-m", "conntrack", "--ctstate", "NEW"] + Ipt.COMMENT, p) <==> p.iif == iface && p.ct.New?
  {
    hide CtListed;
    StateHolds("NEW", p);
    CtLists(p.ct);
    var w := ["-i", iface, "-m", "conntrack", "--ctstate", "NEW"] + Ipt.COMMENT;
    assert w[2..] == ["-m", "conntrack", "--ctstate", "NEW"] + Ipt.COMMENT;
  }

  lemma SetMark(p: Packet)
    ensures IptAct(["CONNMARK", "--set-xmark", "0x100/0x100"], p) == p.(ctMark := p.ctMark + {BIT})
  {
    hide Cut, Bits;
    assert "0x100/0x100" == "0x100" + "/" + "0x100";
    CutAt("0x100", '/', "0x100");
    MarkBits();
    var w := ["CONNMARK", "--set-xmark", "0x100/0x100"];
    assert w[..2] == ["CONNMARK", "--set-xmark"];
    assert Xor(p.ctMark - {BIT}, {BIT}) == p.ctMark + {BIT};
  }

  lemma RestoreMark(p: Packet)
    ensures IptAct(["CONNMARK", "--restore-mark", "--nfmask", "0x100", "--ctmask", "0x100"], p)
            == p.(mark := if BIT in p.ctMark then p.mark + {BIT} else p.mark - {BIT})
  {
    hide Bits;
    MarkBits();
    var w := ["CONNMARK", "--restore-mark", "--nfmask", "0x100", "--ctmask", "0x100"];
    assert w[..3] == ["CONNMARK", "--restore-mark", "--nfmask"];
    assert Xor(p.mark - {BIT}, p.ctMark * {BIT}) == if BIT in p.ctMark then p.mark + {BIT} else p.mark - {BIT};
  }

  lemma IptMarks(iface: string, hook: Ipt.Hook, p: Packet)
    ensures IptChain(Ipt.ChainRules(hook, iface), p)
            == if !p.ct.New? && BIT !in p.ctMark then p.(mark := p.mark - {BIT}) else Marked(iface, hook, p)
  {
    hide IptHolds, IptAct, CtListed;
    CtLists(p.ct);
    StateHolds("ESTABLISHED,RELATED", p);
    RestoreMark(p);
    IptOne(Ipt.RestoreMark(), p);
    if hook == Ipt.Prerouting {
      InterfaceHolds(iface, p);
      SetMark(p);
      var q := if p.iif == iface && p.ct.New? then p.(ctMark := p.ctMark + {BIT}) else p;
      StateHolds("ESTABLISHED,RELATED", q);
      IptOne(Ipt.RestoreMark(), q);
      var rules := Ipt.ChainRules(hook, iface);
      assert rules[1..] == [Ipt.RestoreMark()];
      assert IptChain(rules, p) == IptChain([Ipt.RestoreMark()], q);
    }
  }

  lemma IptOne(r: Ipt.IptRule, p: Packet)
    ensures IptChain([r], p) == if r.target.Action? && IptHolds(r.condition, p) then IptAct(r.target.words, p) else p
  {
    hide IptHolds, IptAct;
    var none: seq<Ipt.IptRule> := [];
    var q := if r.target.Action? && IptHolds(r.condition, p) then IptAct(r.target.words, p) else p;
    assert [r][1..] == none && IptChain(none, q) == q;
  }

  lemma InstallEnters(m: Ipt.Mangle, iface: string, hook: Ipt.Hook, p: Packet)
    requires Ipt.BuiltIn(hook) in m
    ensures Enters(Ipt.Install(m, iface), hook, p)
    ensures Ipt.Install(m, iface)[Ipt.Own(hook)] == Ipt.ChainRules(hook, iface)
  {
    hide Ipt.ChainRules, IptHolds;
    CommentHolds(p);
    var next := Ipt.Install(m, iface);
    assert Ipt.Own(hook) in next by {
      assert hook == Ipt.Prerouting || hook == Ipt.Output || hook == Ipt.Forward;
    }
    assert Ipt.MainJump(hook) in next[Ipt.BuiltIn(hook)];
  }

  // ---- the return path ----

  /** What either installation makes of a packet: a connection that comes in by the interface is marked, packets
      of a marked connection are, and nothing else of any mark changes; but that iptables clears the project's bit
      of a packet whose connection does not have it. */
  lemma FilterMarks(b: Backend, r: Record, h: Host, hook: Ipt.Hook, p: Packet)
    requires IsOwnRecord(b, r) && WellFormed(h) && (b.NftBackend? ==> Nft.NoOwnTable(h.nft))
    ensures var q := Filter(b, TunRecovery.Installed(b, r, h), hook, p);
            && q == p.(mark := q.mark, ctMark := q.ctMark)
            && q.mark - {BIT} == p.mark - {BIT} && q.ctMark - {BIT} == p.ctMark - {BIT}
            && (BIT in q.ctMark <==> BIT in p.ctMark || (hook == Ipt.Prerouting && p.ct.New? && p.iif == r.iface))
            && (p.ct.New? ==> q.mark == p.mark)
            && (!p.ct.New? && BIT in p.ctMark ==> BIT in q.mark)
            && (!p.ct.New? && BIT !in p.ctMark ==> BIT !in q.mark || (b.NftBackend? && BIT in p.mark))
  {
    hide IptChain, NftChain, Ipt.ChainRules, Nft.RunScript;
    match b
    case NftBackend => NftMarks(h.nft, r.iface, Comment(r), hook, p);
    case IptablesLegacy =>
      InstallEnters(h.mangle, r.iface, hook, p);
      IptMarks(r.iface, hook, p);
  }

  /** Answers go back the way the connection came. Its first packet comes in by the interface of the record; a
      later one of the same connection, from wherever to wherever, passes the project's chain of any hook. Then,
      among the rules added, the one that decides looks it up in the main table if it goes to a private address,
      and else in a table whose only route leads through the gateway and out of that interface. */
  lemma AnswersGoBack(b: Backend, r: Record, h: Host, first: Packet, answer: Packet, hook: Ipt.Hook)
    requires IsOwnRecord(b, r) && WellFormed(h) && SlotsFree(h) && (b.NftBackend? ==> Nft.NoOwnTable(h.nft))
    requires first.ct.New? && first.iif == r.iface && !answer.ct.New?
    requires answer.ctMark == Filter(b, TunRecovery.Installed(b, r, h), Ipt.Prerouting, first).ctMark
    ensures var host := TunRecovery.Installed(b, r, h);
            var q := Filter(b, host, hook, answer);
            && (exists x :: Decides(AddedRules(b, r, h), q, x))
            && forall x | Decides(AddedRules(b, r, h), q, x) ::
                 if Private(answer.destination) then x.table == "main"
                 else && Route("default", r.gateway, r.iface, x.table) in host.routes
                      && forall route | route in host.routes && route.table == x.table ::
                           route == Route("default", r.gateway, r.iface, x.table)
  {
    hide Filter, Private, Decides, AddedRules, TunRecovery.Installed, IsOwnRecord, WellFormed;
    FilterMarks(b, r, h, Ipt.Prerouting, first);
    FilterMarks(b, r, h, hook, answer);
    AddedRulesRoute(b, r, h, Filter(b, TunRecovery.Installed(b, r, h), hook, answer));
  }

  /** And nothing else is touched: a packet without the project's bit, of a connection without it, that did not
      come in by the interface as the first of its connection, keeps all marks, and is no business of the added
      rules unless it goes to a private address. */
  lemma OthersGoTheirWay(b: Backend, r: Record, h: Host, p: Packet, hook: Ipt.Hook)
    requires IsOwnRecord(b, r) && WellFormed(h) && SlotsFree(h) && (b.NftBackend? ==> Nft.NoOwnTable(h.nft))
    requires BIT !in p.mark && BIT !in p.ctMark && !(p.ct.New? && p.iif == r.iface)
    ensures var q := Filter(b, TunRecovery.Installed(b, r, h), hook, p);
            q == p && (Private(p.destination) || forall x :: !Decides(AddedRules(b, r, h), q, x))
  {
    hide Filter, Private, Decides, AddedRules, TunRecovery.Installed, IsOwnRecord, WellFormed;
    FilterMarks(b, r, h, hook, p);
    AddedRulesRoute(b, r, h, p);
    var q := Filter(b, TunRecovery.Installed(b, r, h), hook, p);
    assert q.mark == q.mark - {BIT} && q.ctMark == q.ctMark - {BIT};
    assert p.mark == p.mark - {BIT} && p.ctMark == p.ctMark - {BIT};
  }
}
