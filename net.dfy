/** The `net` object of net.py: the wired and wireless interface lists, the
    rotation through them, the text shown for an interface, and the results
    published by the wifi-scan, reachability-check and custom-command
    workers. Every call into pyric, netifaces, getmac, the resolver, ping or
    subprocess becomes an oracle parameter or a snapshot value. */
module Net {
  import opened Strings

  /** What `get_mac_address` reports for the virtual interfaces excluded
      from both lists (five groups, as written). */
  const NoMac: string := "00:00:00:00:00"
  const Loopback: string := "lo"
  /** The entry that stands in for an empty interface list. */
  const Placeholder: string := "None"

  // ---------------------------------------------------------------------
  // Interface classification (get_interfaces)
  // ---------------------------------------------------------------------

  /** An interface is listed unless it is the loopback or reports the
      all-zero MAC; a lookup that yields nothing (`None`) keeps it. */
  predicate Listed(name: string, mac: string -> Option<string>)
  {
    mac(name) != Some(NoMac) && name != Loopback
  }

  /** The listed interfaces of `links` whose radio test equals `wireless`,
      in the order of `links`. */
  function Classified(links: seq<string>, mac: string -> Option<string>, isWireless: string -> bool, wireless: bool): seq<string>
  {
    if |links| == 0 then []
    else
      var name := links[|links| - 1];
      Classified(links[..|links| - 1], mac, isWireless, wireless) +
        (if Listed(name, mac) && isWireless(name) == wireless then [name] else [])
  }

  /** A name is in a classified list exactly when it is a listed interface of
      that kind. */
  lemma {:induction false} ClassifiedMembers(links: seq<string>, mac: string -> Option<string>, isWireless: string -> bool, wireless: bool, name: string)
    ensures name in Classified(links, mac, isWireless, wireless) <==>
      name in links && Listed(name, mac) && isWireless(name) == wireless
  {
    if |links| > 0 {
      var init := links[..|links| - 1];
      ClassifiedMembers(init, mac, isWireless, wireless, name);
      assert links == init + [links[|links| - 1]];
    }
  }

  /** Classification keeps input order: the list for a concatenation is the
      concatenation of the lists. */
  lemma {:induction false} ClassifiedAppend(a: seq<string>, b: seq<string>, mac: string -> Option<string>, isWireless: string -> bool, wireless: bool)
    ensures Classified(a + b, mac, isWireless, wireless) ==
      Classified(a, mac, isWireless, wireless) + Classified(b, mac, isWireless, wireless)
    decreases |b|
  {
    if |b| == 0 {
      assert a + b == a;
    } else {
      var b' := b[..|b| - 1];
      assert (a + b)[..|a + b| - 1] == a + b';
      ClassifiedAppend(a, b', mac, isWireless, wireless);
    }
  }

  /** Number of listed interfaces in `links`. */
  function ListedCount(links: seq<string>, mac: string -> Option<string>): nat
  {
    if |links| == 0 then 0
    else ListedCount(links[..|links| - 1], mac) + (if Listed(links[|links| - 1], mac) then 1 else 0)
  }

  /** Every listed interface lands in exactly one of the two lists. */
  lemma {:induction false} ClassifiedPartition(links: seq<string>, mac: string -> Option<string>, isWireless: string -> bool)
    ensures |Classified(links, mac, isWireless, true)| + |Classified(links, mac, isWireless, false)| == ListedCount(links, mac)
  {
    if |links| > 0 {
      ClassifiedPartition(links[..|links| - 1], mac, isWireless);
    }
  }

  /** The placeholder padding applied to an empty list. */
  function Padded(list: seq<string>): (r: seq<string>)
    ensures |r| >= 1
    ensures |list| > 0 ==> r == list
    ensures |list| == 0 ==> r == [Placeholder]
  {
    if |list| == 0 then [Placeholder] else list
  }

  // ---------------------------------------------------------------------
  // Interface rotation (iterate_interface)
  // ---------------------------------------------------------------------

  /** `iterate_interface`. `None` is the `ValueError` of `list.index` when
      `last` is not in `interfaces`; it is raised before `current` is looked
      at. Otherwise the result is `last` when the other kind of interface is
      selected, and the entry after `last` (wrapping to the first) when
      `last` is already selected. */
  function IterateInterface(current: string, interfaces: seq<string>, last: string): (r: Option<string>)
    ensures r.None? <==> last !in interfaces
    ensures r.Some? ==> r.value in interfaces
    ensures r.Some? && current != last ==> r.value == last
    ensures r.Some? && current == last ==>
      r.value == interfaces[(IndexOf(interfaces, last) + 1) % |interfaces|]
  {
    if last !in interfaces then None
    else
      var index := IndexOf(interfaces, last);
      if current == last then
        var next := index + 1;
        NextIndex(index, |interfaces|);
        Some(interfaces[if next == |interfaces| then 0 else next])
      else Some(last)
  }

  /** The wrap-around step of `iterate_interface` is a successor modulo the
      list length. */
  lemma NextIndex(index: nat, n: nat)
    requires index < n
    ensures (index + 1) % n == (if index + 1 == n then 0 else index + 1)
  {
    if index + 1 == n {
      ModUnique(index + 1, n, 1, 0);
    } else {
      ModUnique(index + 1, n, 0, index + 1);
    }
  }

  /** No interface occurs twice (names reported by the kernel are unique). */
  predicate Distinct(s: seq<string>)
  {
    forall i, j :: 0 <= i < j < |s| ==> s[i] != s[j]
  }

  /** Pressing the same switch `k` times, starting on entry `i`. */
  function Rotate(interfaces: seq<string>, i: nat, k: nat): string
    requires i < |interfaces|
  {
    if k == 0 then interfaces[i]
    else
      var prev := Rotate(interfaces, i, k - 1);
      if prev in interfaces then IterateInterface(prev, interfaces, prev).value else prev
  }

  /** Repeated presses of one switch cycle through a list of distinct
      interfaces in order, so every interface is reached within `n` presses
      and the `n`-th press is back at the start. */
  lemma {:induction false} RotationCycles(interfaces: seq<string>, i: nat, k: nat)
    requires i < |interfaces| && Distinct(interfaces)
    ensures Rotate(interfaces, i, k) == interfaces[(i + k) % |interfaces|]
  {
    if k > 0 {
      RotationCycles(interfaces, i, k - 1);
      RotateFrom(interfaces, i, k);
    } else {
      ModUnique(i, |interfaces|, 0, i);
    }
  }

  /** A rotation that has reached entry `i + k - 1` reaches entry `i + k`
      with the next press, modulo the list length. */
  lemma RotateFrom(interfaces: seq<string>, i: nat, k: nat)
    requires i < |interfaces| && Distinct(interfaces) && k >= 1
    requires Rotate(interfaces, i, k - 1) == interfaces[(i + (k - 1)) % |interfaces|]
    ensures Rotate(interfaces, i, k) == interfaces[(i + k) % |interfaces|]
  {
    var j := (i + (k - 1)) % |interfaces|;
    ModStep(i + (k - 1), i + k, |interfaces|);
    RotateStep(interfaces, j);
  }

  /** One press from entry `j` of a distinct list selects entry `j + 1`,
      wrapping to the first. */
  lemma RotateStep(interfaces: seq<string>, j: nat)
    requires j < |interfaces| && Distinct(interfaces)
    ensures IterateInterface(interfaces[j], interfaces, interfaces[j]) == Some(interfaces[(j + 1) % |interfaces|])
  {
    IndexOfDistinct(interfaces, j);
  }

  lemma IndexOfDistinct(s: seq<string>, j: nat)
    requires j < |s| && Distinct(s)
    ensures IndexOf(s, s[j]) == j
  {
  }

  lemma ModStep(a: nat, b: nat, n: nat)
    requires n > 0 && b == a + 1
    ensures 0 <= a % n < n
    ensures (a % n + 1) % n == b % n
  {
    var q, r := a / n, a % n;
    if r + 1 < n {
      ModUnique(a + 1, n, q, r + 1);
      ModUnique(r + 1, n, 0, r + 1);
    } else {
      ModUnique(a + 1, n, q + 1, 0);
      ModUnique(r + 1, n, 1, 0);
    }
  }

  /** Euclidean division is unique: a quotient and a remainder in range
      that rebuild `a` are `a / n` and `a % n`. */
  lemma ModUnique(a: int, n: int, q: int, r: int)
    requires n > 0 && 0 <= r < n && a == q * n + r
    ensures a % n == r
  {
    var q0, r0 := a / n, a % n;
    var d := q - q0;
    assert d * n == r0 - r;
    if d > 0 {
      MulAtLeast(d, n);
    } else if d < 0 {
      assert (-d) * n == -(d * n);
      MulAtLeast(-d, n);
    }
  }

  lemma MulAtLeast(d: int, n: int)
    requires d >= 1 && n > 0
    ensures d * n >= n
  {
  }

  // ---------------------------------------------------------------------
  // Interface information text (get_interface_info)
  // ---------------------------------------------------------------------

  /** The netifaces address families the text looks at. */
  datatype Family = Link | Inet | Inet6

  /** One address record of `netifaces.ifaddresses`. */
  type Dataset = map<string, string>

  /** `netifaces.ifaddresses` for every interface present at the moment of
      the call. */
  type AddressSnapshot = map<string, map<Family, seq<Dataset>>>

  /** The two lines shown when the lookup raises. */
  function NotAvailable(message: string): seq<string>
  {
    ["Not available:", message]
  }

  /** The lines of one IPv4 or IPv6 record: a blank separator, then the
      address, netmask and broadcast lines that the record has, in that
      order. */
  function DatasetBlock(prefix: string, d: Dataset): seq<string>
  {
    [""] +
    (if "addr" in d then [prefix + d["addr"]] else []) +
    (if "netmask" in d then ["  NM: " + d["netmask"]] else []) +
    (if "broadcast" in d then ["  BC: " + d["broadcast"]] else [])
  }

  /** The blocks of all records of one family, in record order. */
  function DatasetLines(prefix: string, ds: seq<Dataset>): seq<string>
  {
    if |ds| == 0 then []
    else DatasetLines(prefix, ds[..|ds| - 1]) + DatasetBlock(prefix, ds[|ds| - 1])
  }

  function FamilyLines(a: map<Family, seq<Dataset>>, f: Family, prefix: string): seq<string>
  {
    if f in a then DatasetLines(prefix, a[f]) else []
  }

  /** `get_interface_info` for interface `name`. The four ways the lookup can
      raise give their exception text: an unknown interface (`ValueError`),
      no link-layer family (`KeyError` of `AF_LINK`, which is 17), an empty
      link-layer list (`IndexError`) and a link-layer record without an
      address (`KeyError('addr')`). */
  function InterfaceInfo(snapshot: AddressSnapshot, name: string): seq<string>
  {
    if name !in snapshot then NotAvailable("You must specify a valid interface name.")
    else
      var a := snapshot[name];
      if Link !in a then NotAvailable("17")
      else if |a[Link]| == 0 then NotAvailable("list index out of range")
      else if "addr" !in a[Link][0] then NotAvailable("'addr'")
      else ["MAC:  " + a[Link][0]["addr"]] + FamilyLines(a, Inet, "IPv4: ") + FamilyLines(a, Inet6, "IPv6: ")
  }

  /** Whether the lookup for `name` succeeds. */
  predicate InfoAvailable(snapshot: AddressSnapshot, name: string)
  {
    name in snapshot && Link in snapshot[name] && |snapshot[name][Link]| > 0 && "addr" in snapshot[name][Link][0]
  }

  /** Number of blank lines in a text. */
  function Blanks(text: seq<string>): nat
  {
    if |text| == 0 then 0 else Blanks(text[..|text| - 1]) + (if text[|text| - 1] == "" then 1 else 0)
  }

  lemma {:induction false} BlanksAppend(a: seq<string>, b: seq<string>)
    ensures Blanks(a + b) == Blanks(a) + Blanks(b)
    decreases |b|
  {
    if |b| == 0 {
      assert a + b == a;
    } else {
      assert (a + b)[..|a + b| - 1] == a + b[..|b| - 1];
      BlanksAppend(a, b[..|b| - 1]);
    }
  }

  lemma BlockBlanks(prefix: string, d: Dataset)
    requires |prefix| > 0
    ensures Blanks(DatasetBlock(prefix, d)) == 1
    ensures 1 <= |DatasetBlock(prefix, d)| <= 4
  {
    var b := DatasetBlock(prefix, d);
    var tail := b[1..];
    assert b == [""] + tail;
    assert forall k :: 0 <= k < |tail| ==> |tail[k]| > 0;
    NoBlanks(tail);
    BlanksAppend([""], tail);
    assert [""][..0] == [];
  }

  lemma {:induction false} NoBlanks(text: seq<string>)
    requires forall k :: 0 <= k < |text| ==> |text[k]| > 0
    ensures Blanks(text) == 0
  {
    if |text| > 0 {
      NoBlanks(text[..|text| - 1]);
    }
  }

  /** Each record contributes exactly one blank separator and at most three
      further lines. */
  lemma {:induction false} DatasetLinesShape(prefix: string, ds: seq<Dataset>)
    requires |prefix| > 0
    ensures Blanks(DatasetLines(prefix, ds)) == |ds|
    ensures |ds| <= |DatasetLines(prefix, ds)| <= 4 * |ds|
  {
    if |ds| > 0 {
      var init := ds[..|ds| - 1];
      DatasetLinesShape(prefix, init);
      BlockBlanks(prefix, ds[|ds| - 1]);
      BlanksAppend(DatasetLines(prefix, init), DatasetBlock(prefix, ds[|ds| - 1]));
    }
  }

  /** The shape of the interface text: on success the MAC line comes first
      and there is one blank line per IPv4 and IPv6 record; on failure the
      text is exactly the two "not available" lines. */
  lemma InterfaceInfoShape(snapshot: AddressSnapshot, name: string)
    ensures var text := InterfaceInfo(snapshot, name);
      if InfoAvailable(snapshot, name) then
        var a := snapshot[name];
        text[0] == "MAC:  " + a[Link][0]["addr"] &&
        Blanks(text) == (if Inet in a then |a[Inet]| else 0) + (if Inet6 in a then |a[Inet6]| else 0)
      else |text| == 2 && text[0] == "Not available:"
  {
    if InfoAvailable(snapshot, name) {
      var a := snapshot[name];
      var head := ["MAC:  " + a[Link][0]["addr"]];
      var v4, v6 := FamilyLines(a, Inet, "IPv4: "), FamilyLines(a, Inet6, "IPv6: ");
      if Inet in a { DatasetLinesShape("IPv4: ", a[Inet]); }
      if Inet6 in a { DatasetLinesShape("IPv6: ", a[Inet6]); }
      NoBlanks(head);
      BlanksAppend(head, v4);
      BlanksAppend(head + v4, v6);
    }
  }

  // ---------------------------------------------------------------------
  // Wifi scan text (get_wifi_scan)
  // ---------------------------------------------------------------------

  /** One entry of the access-point scanner's result. */
  datatype AccessPoint = AccessPoint(ssid: string, bssid: string, quality: int, security: string)

  /** The five lines shown for one access point. */
  function AccessPointLines(ap: AccessPoint): seq<string>
  {
    ["SSID:     " + ap.ssid,
     "BSSID:    " + ap.bssid,
     "Signal:   " + IntToString(ap.quality),
     "Security: " + ap.security,
     " "]
  }

  /** The scan text for a list of access points, in list order. */
  function WifiScanText(aps: seq<AccessPoint>): seq<string>
  {
    if |aps| == 0 then [] else WifiScanText(aps[..|aps| - 1]) + AccessPointLines(aps[|aps| - 1])
  }

  /** Five lines per access point; access point `k` owns lines `5k` to
      `5k+4`, starting with its SSID line and ending with the spacer. */
  lemma {:induction false} WifiScanTextShape(aps: seq<AccessPoint>)
    ensures |WifiScanText(aps)| == 5 * |aps|
    ensures forall k :: 0 <= k < |aps| ==> WifiScanText(aps)[5 * k..5 * k + 5] == AccessPointLines(aps[k])
  {
    if |aps| > 0 {
      var init := aps[..|aps| - 1];
      WifiScanTextShape(init);
      var t := WifiScanText(aps);
      assert t == WifiScanText(init) + AccessPointLines(aps[|aps| - 1]);
      forall k | 0 <= k < |aps|
        ensures t[5 * k..5 * k + 5] == AccessPointLines(aps[k])
      {
        if k < |aps| - 1 {
          assert t[5 * k..5 * k + 5] == WifiScanText(init)[5 * k..5 * k + 5];
          assert init[k] == aps[k];
        } else {
          assert t[5 * k..5 * k + 5] == AccessPointLines(aps[|aps| - 1]);
        }
      }
    }
  }

  /** What probing one wireless interface yields in the scanner worker. */
  datatype CardProbe =
    | LookupFails                          // the card lookup raises: the worker ends early
    | InvalidCard                          // not a valid card: skipped
    | HardBlocked                          // blocked by a hardware switch: skipped
    | Scanned(found: seq<AccessPoint>)     // usable: its scan result is appended

  /** The access points collected from `interfaces` when no lookup fails. */
  function CollectedAccessPoints(interfaces: seq<string>, probe: string -> CardProbe): seq<AccessPoint>
  {
    if |interfaces| == 0 then []
    else
      var p := probe(interfaces[|interfaces| - 1]);
      CollectedAccessPoints(interfaces[..|interfaces| - 1], probe) + (if p.Scanned? then p.found else [])
  }

  predicate NoLookupFails(interfaces: seq<string>, probe: string -> CardProbe)
  {
    forall k :: 0 <= k < |interfaces| ==> !probe(interfaces[k]).LookupFails?
  }

  /** Every collected access point was found on a usable card. */
  lemma {:induction false} CollectedFromUsableCards(interfaces: seq<string>, probe: string -> CardProbe, ap: AccessPoint)
    requires ap in CollectedAccessPoints(interfaces, probe)
    ensures exists k :: 0 <= k < |interfaces| && probe(interfaces[k]).Scanned? && ap in probe(interfaces[k]).found
  {
    var n := |interfaces|;
    var init := interfaces[..n - 1];
    var p := probe(interfaces[n - 1]);
    if p.Scanned? && ap in p.found {
      assert probe(interfaces[n - 1]).Scanned?;
    } else {
      CollectedFromUsableCards(init, probe, ap);
      var k :| 0 <= k < |init| && probe(init[k]).Scanned? && ap in probe(init[k]).found;
      assert interfaces[k] == init[k];
    }
  }

  // ---------------------------------------------------------------------
  // Reachability check (_net_checker)
  // ---------------------------------------------------------------------

  /** The helpers of net_helper.py: the IPv4 and IPv6 literal tests, the
      resolver (`None` when it raises) and ping. */
  datatype Probes = Probes(
    isIpv4: string -> bool,
    isIpv6: string -> bool,
    resolve: string -> Option<string>,
    reachable: string -> bool)

  /** The address a remote is pinged at: the remote itself when it is an IP
      literal, its resolved address otherwise; `None` when it is neither. */
  function HostAddress(remote: string, p: Probes): Option<string>
  {
    if p.isIpv4(remote) || p.isIpv6(remote) then Some(remote) else p.resolve(remote)
  }

  /** The lines reported for one remote. */
  function RemoteReport(remote: string, p: Probes): seq<string>
  {
    match HostAddress(remote, p)
    case None => [remote + ": Gegenstelle ungültig"]
    case Some(ip) =>
      (if p.isIpv4(remote) || p.isIpv6(remote) then [] else [remote + ": " + ip]) +
      [if p.reachable(ip) then remote + ": erreichbar" else remote + ": NICHT erreichbar"]
  }

  /** The whole report, remote by remote in the given order. */
  function NetCheckText(remotes: seq<string>, p: Probes): seq<string>
  {
    if |remotes| == 0 then [] else NetCheckText(remotes[..|remotes| - 1], p) + RemoteReport(remotes[|remotes| - 1], p)
  }

  /** The addresses pinged, in order: one per remote that has an address. */
  function PingTargets(remotes: seq<string>, p: Probes): seq<string>
  {
    if |remotes| == 0 then []
    else
      var h := HostAddress(remotes[|remotes| - 1], p);
      PingTargets(remotes[..|remotes| - 1], p) + (if h.Some? then [h.value] else [])
  }

  /** Number of remotes that are neither an IP literal nor resolvable. */
  function InvalidCount(remotes: seq<string>, p: Probes): nat
  {
    if |remotes| == 0 then 0
    else InvalidCount(remotes[..|remotes| - 1], p) + (if HostAddress(remotes[|remotes| - 1], p).None? then 1 else 0)
  }

  /** Number of remotes reached through the resolver. */
  function ResolvedCount(remotes: seq<string>, p: Probes): nat
  {
    if |remotes| == 0 then 0
    else
      var r := remotes[|remotes| - 1];
      ResolvedCount(remotes[..|remotes| - 1], p) +
        (if !(p.isIpv4(r) || p.isIpv6(r)) && p.resolve(r).Some? then 1 else 0)
  }

  /** One line per remote, plus one address line per resolved hostname; every
      remote without an address is left unpinged and every other is pinged
      once. */
  lemma {:induction false} NetCheckCounts(remotes: seq<string>, p: Probes)
    ensures |NetCheckText(remotes, p)| == |remotes| + ResolvedCount(remotes, p)
    ensures |PingTargets(remotes, p)| + InvalidCount(remotes, p) == |remotes|
  {
    if |remotes| > 0 {
      NetCheckCounts(remotes[..|remotes| - 1], p);
    }
  }

  /** Remotes are reported independently and in order. */
  lemma {:induction false} NetCheckAppend(a: seq<string>, b: seq<string>, p: Probes)
    ensures NetCheckText(a + b, p) == NetCheckText(a, p) + NetCheckText(b, p)
    decreases |b|
  {
    if |b| == 0 {
      assert a + b == a;
    } else {
      var init, last := b[..|b| - 1], b[|b| - 1];
      assert b == init + [last];
      assert a + b == (a + init) + [last];
      var report := RemoteReport(last, p);
      calc {
        NetCheckText(a + b, p);
        { NetCheckSnoc(a + init, last, p); }
        NetCheckText(a + init, p) + report;
        { NetCheckAppend(a, init, p); }
        (NetCheckText(a, p) + NetCheckText(init, p)) + report;
        NetCheckText(a, p) + (NetCheckText(init, p) + report);
        { NetCheckSnoc(init, last, p); }
        NetCheckText(a, p) + NetCheckText(b, p);
      }
    }
  }

  lemma NetCheckSnoc(remotes: seq<string>, r: string, p: Probes)
    ensures NetCheckText(remotes + [r], p) == NetCheckText(remotes, p) + RemoteReport(r, p)
  {
    assert (remotes + [r])[..|remotes|] == remotes;
  }

  /** The report for a reachable IPv4 literal followed by a name the
      resolver rejects. */
  lemma NetCheckExample(p: Probes)
    requires p.isIpv4("8.8.8.8") && p.reachable("8.8.8.8")
    requires !p.isIpv4("no.such.host") && !p.isIpv6("no.such.host") && p.resolve("no.such.host").None?
    ensures NetCheckText(["8.8.8.8", "no.such.host"], p) ==
      ["8.8.8.8: erreichbar", "no.such.host: Gegenstelle ungültig"]
    ensures PingTargets(["8.8.8.8", "no.such.host"], p) == ["8.8.8.8"]
  {
    var rs := ["8.8.8.8", "no.such.host"];
    assert rs[..1] == ["8.8.8.8"] && rs[..1][..0] == [];
    assert "8.8.8.8" + ": erreichbar" == "8.8.8.8: erreichbar";
    assert "no.such.host" + ": Gegenstelle ungültig" == "no.such.host: Gegenstelle ungültig";
    assert RemoteReport("8.8.8.8", p) == ["8.8.8.8: erreichbar"];
    assert RemoteReport("no.such.host", p) == ["no.such.host: Gegenstelle ungültig"];
    assert NetCheckText(rs[..1], p) == ["8.8.8.8: erreichbar"];
    assert PingTargets(rs[..1], p) == ["8.8.8.8"];
  }

  // ---------------------------------------------------------------------
  // Custom command (_custom_command)
  // ---------------------------------------------------------------------

  /** What running the argument vector yields: it cannot be started, or it
      exits with a return code and an output that either decodes as UTF-8
      into lines (`Some`) or does not (`None`). */
  datatype RunOutcome =
    | LaunchFailed
    | Exited(returnCode: int, output: Option<seq<string>>)

  const CommandFailed: string := "Programmausführung fehlgeschlagen"

  /** The argument vector: the command split at every single space. */
  function CommandArgv(command: string): (argv: seq<string>)
    ensures |argv| >= 1 && Join(argv, ' ') == command
    ensures forall k :: 0 <= k < |argv| ==> ' ' !in argv[k]
  {
    JoinSplit(command, ' ');
    Split(command, ' ')
  }

  /** The published text: the output lines of a run that exits with 0 and
      decodes, the single failure line otherwise. */
  function CustomCommandText(command: string, run: seq<string> -> RunOutcome): (text: seq<string>)
    ensures var o := run(CommandArgv(command));
      text == (if o.Exited? && o.returnCode == 0 && o.output.Some? then o.output.value else [CommandFailed])
  {
    match run(CommandArgv(command))
    case Exited(0, Some(lines)) => lines
    case _ => [CommandFailed]
  }

  // ---------------------------------------------------------------------
  // The net object
  // ---------------------------------------------------------------------

  class Net {
    var wirelessInterfaces: seq<string>
    var wiredInterfaces: seq<string>
    var currentInterface: string
    var lastWiredInterface: string
    var lastWirelessInterface: string
    var firstScanComplete: bool
    var accessPoints: seq<AccessPoint>
    var netStatusResults: Option<seq<string>>
    var customCommandResult: Option<seq<string>>

    /** Both lists are non-empty, each remembered interface belongs to its
        list, and the selected interface is one of the two remembered ones.
        Under it neither switch can raise. */
    ghost predicate Valid()
      reads this`wirelessInterfaces, this`wiredInterfaces
      reads this`currentInterface, this`lastWiredInterface, this`lastWirelessInterface
    {
      |wirelessInterfaces| > 0 && |wiredInterfaces| > 0 &&
      lastWiredInterface in wiredInterfaces &&
      lastWirelessInterface in wirelessInterfaces &&
      (currentInterface == lastWiredInterface || currentInterface == lastWirelessInterface)
    }

    /** `net.__init__`: classify the interfaces `links` reported by the
        system and select the first wired one. The scanner worker is started
        here; its effect is `WifiScannerWorker`. */
    constructor (links: seq<string>, mac: string -> Option<string>, isWireless: string -> bool)
      ensures Valid()
      ensures wirelessInterfaces == Padded(Classified(links, mac, isWireless, true))
      ensures wiredInterfaces == Padded(Classified(links, mac, isWireless, false))
      ensures currentInterface == lastWiredInterface == wiredInterfaces[0]
      ensures lastWirelessInterface == wirelessInterfaces[0]
      ensures !firstScanComplete && accessPoints == []
      ensures netStatusResults == None && customCommandResult == None
    {
      wirelessInterfaces, wiredInterfaces := [], [];
      currentInterface, lastWiredInterface, lastWirelessInterface := "", "", "";
      firstScanComplete := false;
      accessPoints := [];
      netStatusResults, customCommandResult := None, None;
      new;
      ghost var wireless, wired := Classified(links, mac, isWireless, true), Classified(links, mac, isWireless, false);
      assert [] + wireless == wireless && [] + wired == wired;
      GetInterfaces(links, mac, isWireless);
      assert wirelessInterfaces == Padded(wireless) && wiredInterfaces == Padded(wired);
      currentInterface := wiredInterfaces[0];
      lastWiredInterface := wiredInterfaces[0];
      lastWirelessInterface := wirelessInterfaces[0];
    }

    /** `get_interfaces`: append every listed interface to the list of its
        kind, then pad an empty list with the placeholder. */
    method GetInterfaces(links: seq<string>, mac: string -> Option<string>, isWireless: string -> bool)
      modifies this`wirelessInterfaces, this`wiredInterfaces
      ensures wirelessInterfaces == Padded(old(wirelessInterfaces) + Classified(links, mac, isWireless, true))
      ensures wiredInterfaces == Padded(old(wiredInterfaces) + Classified(links, mac, isWireless, false))
    {
      for k := 0 to |links|
        invariant wirelessInterfaces == old(wirelessInterfaces) + Classified(links[..k], mac, isWireless, true)
        invariant wiredInterfaces == old(wiredInterfaces) + Classified(links[..k], mac, isWireless, false)
      {
        var name := links[k];
        assert links[..k + 1][..k] == links[..k];
        if mac(name) != Some(NoMac) && name != Loopback {
          if isWireless(name) {
            wirelessInterfaces := wirelessInterfaces + [name];
          } else {
            wiredInterfaces := wiredInterfaces + [name];
          }
        }
      }
      assert links[..|links|] == links;
      if |wirelessInterfaces| == 0 {
        wirelessInterfaces := wirelessInterfaces + [Placeholder];
      }
      if |wiredInterfaces| == 0 {
        wiredInterfaces := wiredInterfaces + [Placeholder];
      }
    }

    /** `switch_to_wired`: select the rotated wired interface and remember
        it; the remembered wireless interface is untouched. */
    method SwitchToWired()
      requires Valid()
      modifies this`currentInterface, this`lastWiredInterface
      ensures Valid()
      ensures Some(currentInterface) == IterateInterface(old(currentInterface), wiredInterfaces, old(lastWiredInterface))
      ensures lastWiredInterface == currentInterface
    {
      var interface := IterateInterface(currentInterface, wiredInterfaces, lastWiredInterface).value;
      currentInterface := interface;
      lastWiredInterface := interface;
    }

    /** `switch_to_wireless`: the same for the wireless list. */
    method SwitchToWireless()
      requires Valid()
      modifies this`currentInterface, this`lastWirelessInterface
      ensures Valid()
      ensures Some(currentInterface) == IterateInterface(old(currentInterface), wirelessInterfaces, old(lastWirelessInterface))
      ensures lastWirelessInterface == currentInterface
    {
      var interface := IterateInterface(currentInterface, wirelessInterfaces, lastWirelessInterface).value;
      currentInterface := interface;
      lastWirelessInterface := interface;
    }

    /** `get_interface_info` for the selected interface, reading the address
        tables from `snapshot`. */
    method GetInterfaceInfo(snapshot: AddressSnapshot) returns (text: seq<string>)
      ensures text == InterfaceInfo(snapshot, currentInterface)
    {
      if !InfoAvailable(snapshot, currentInterface) {
        var name := currentInterface;
        if name !in snapshot {
          return NotAvailable("You must specify a valid interface name.");
        } else if Link !in snapshot[name] {
          return NotAvailable("17");
        } else if |snapshot[name][Link]| == 0 {
          return NotAvailable("list index out of range");
        }
        return NotAvailable("'addr'");
      }
      var info := snapshot[currentInterface];
      text := ["MAC:  " + info[Link][0]["addr"]];
      if Inet in info {
        text := AppendDatasets(text, "IPv4: ", info[Inet]);
      }
      if Inet6 in info {
        text := AppendDatasets(text, "IPv6: ", info[Inet6]);
      }
    }

    /** `get_wifi_scan`: nothing until the first scan has completed, then the
        text for the collected access points. */
    method GetWifiScan() returns (text: Option<seq<string>>)
      ensures !firstScanComplete ==> text == None
      ensures firstScanComplete ==> text == Some(WifiScanText(accessPoints))
    {
      if !firstScanComplete {
        return None;
      }
      var lines: seq<string> := [];
      for k := 0 to |accessPoints|
        invariant lines == WifiScanText(accessPoints[..k])
      {
        var ap := accessPoints[k];
        assert accessPoints[..k + 1][..k] == accessPoints[..k];
        ghost var before := lines;
        assert WifiScanText(accessPoints[..k + 1]) == before + AccessPointLines(ap);
        lines := lines + ["SSID:     " + ap.ssid];
        lines := lines + ["BSSID:    " + ap.bssid];
        lines := lines + ["Signal:   " + IntToString(ap.quality)];
        lines := lines + ["Security: " + ap.security];
        lines := lines + [" "];
        assert lines == before + AccessPointLines(ap);
      }
      assert accessPoints[..|accessPoints|] == accessPoints;
      text := Some(lines);
    }

    /** `_wifi_scanner`: probe every wireless interface in order and collect
        the scan results of the usable ones. A failing card lookup ends the
        worker before it marks the scan complete. */
    method WifiScannerWorker(probe: string -> CardProbe)
      modifies this`accessPoints, this`firstScanComplete
      ensures firstScanComplete == (old(firstScanComplete) || NoLookupFails(wirelessInterfaces, probe))
      ensures NoLookupFails(wirelessInterfaces, probe) ==>
        accessPoints == CollectedAccessPoints(wirelessInterfaces, probe)
    {
      accessPoints := [];
      for k := 0 to |wirelessInterfaces|
        invariant accessPoints == CollectedAccessPoints(wirelessInterfaces[..k], probe)
        invariant NoLookupFails(wirelessInterfaces[..k], probe)
        invariant firstScanComplete == old(firstScanComplete)
      {
        var name := wirelessInterfaces[k];
        assert wirelessInterfaces[..k + 1][..k] == wirelessInterfaces[..k];
        match probe(name) {
          case LookupFails =>
            assert !NoLookupFails(wirelessInterfaces, probe) by {
              assert wirelessInterfaces[k] == name;
            }
            return;
          case InvalidCard =>
          case HardBlocked =>
          case Scanned(found) =>
            accessPoints := accessPoints + found;
        }
      }
      assert wirelessInterfaces[..|wirelessInterfaces|] == wirelessInterfaces;
      firstScanComplete := true;
    }

    /** `net_checker`: withdraw the previous result before the worker
        starts. */
    method NetChecker()
      modifies this`netStatusResults
      ensures netStatusResults == None
    {
      netStatusResults := None;
    }

    /** `_net_checker`: report every remote in order and publish the report
        once all are done. `pinged` lists the addresses handed to ping. */
    method NetCheckerWorker(remotes: seq<string>, p: Probes) returns (pinged: seq<string>)
      modifies this`netStatusResults
      ensures netStatusResults == Some(NetCheckText(remotes, p))
      ensures pinged == PingTargets(remotes, p)
    {
      var text: seq<string> := [];
      pinged := [];
      for k := 0 to |remotes|
        invariant text == NetCheckText(remotes[..k], p)
        invariant pinged == PingTargets(remotes[..k], p)
      {
        var remote := remotes[k];
        assert remotes[..k + 1][..k] == remotes[..k];
        var hostIp: string;
        if p.isIpv4(remote) {
          hostIp := remote;
        } else if p.isIpv6(remote) {
          hostIp := remote;
        } else {
          match p.resolve(remote) {
            case None =>
              text := text + [remote + ": Gegenstelle ungültig"];
              continue;
            case Some(ip) =>
              hostIp := ip;
              text := text + [remote + ": " + hostIp];
          }
        }
        pinged := pinged + [hostIp];
        if p.reachable(hostIp) {
          text := text + [remote + ": erreichbar"];
        } else {
          text := text + [remote + ": NICHT erreichbar"];
        }
      }
      assert remotes[..|remotes|] == remotes;
      netStatusResults := Some(text);
    }

    /** `custom_command`: withdraw the previous result before the worker
        starts. */
    method CustomCommand()
      modifies this`customCommandResult
      ensures customCommandResult == None
    {
      customCommandResult := None;
    }

    /** `_custom_command`: run the space-split command and publish its output
        lines, or the failure line when it cannot start, exits non-zero or
        its output does not decode. */
    method CustomCommandWorker(command: string, run: seq<string> -> RunOutcome)
      modifies this`customCommandResult
      ensures customCommandResult == Some(CustomCommandText(command, run))
    {
      var argv := Split(command, ' ');
      var text: seq<string>;
      match run(argv) {
        case Exited(code, output) =>
          if code != 0 || output.None? {
            text := [CommandFailed];
          } else {
            text := output.value;
          }
        case LaunchFailed =>
          text := [CommandFailed];
      }
      customCommandResult := Some(text);
    }
  }

  /** The record loop of `get_interface_info` for one family. */
  method AppendDatasets(head: seq<string>, prefix: string, ds: seq<Dataset>) returns (text: seq<string>)
    ensures text == head + DatasetLines(prefix, ds)
  {
    text := head;
    for k := 0 to |ds|
      invariant text == head + DatasetLines(prefix, ds[..k])
    {
      var d := ds[k];
      assert ds[..k + 1][..k] == ds[..k];
      text := text + [""];
      if "addr" in d {
        text := text + [prefix + d["addr"]];
      }
      if "netmask" in d {
        text := text + ["  NM: " + d["netmask"]];
      }
      if "broadcast" in d {
        text := text + ["  BC: " + d["broadcast"]];
      }
    }
    assert ds[..|ds|] == ds;
  }
}
