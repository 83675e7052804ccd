/**
 * The client helpers of `public/script.js`: `escapeHtml`, the device table's
 * status-to-action mapping, the development-mode operations on the
 * in-memory `MOCK_DATA`, and the `AppState.isLoading` gate of the event
 * handlers. Network delays, alerts and the markup itself are not modelled.
 */
module Dashboard {
  import opened Wrappers
  import opened Text

  // ---------------------------------------------------------------------
  // escapeHtml
  // ---------------------------------------------------------------------

  /** `s.replace(/c/g, rep)`: every `c` in `s` replaced by `rep`. */
  function ReplaceAll(s: string, c: char, rep: string): (r: string)
    ensures c !in rep ==> c !in r
    ensures forall d :: d != c && d !in rep ==> (d in r <==> d in s)
    decreases |s|
  {
    if s == [] then ""
    else (if s[0] == c then rep else [s[0]]) + ReplaceAll(s[1..], c, rep)
  }

  /** The five replacements of `escapeHtml`, in the order written, ampersand first. */
  function ReplaceChain(s: string): string {
    ReplaceAll(ReplaceAll(ReplaceAll(ReplaceAll(ReplaceAll(s, '&', "&amp;"), '<', "&lt;"), '>', "&gt;"), '"', "&quot;"), '\'', "&#039;")
  }

  /**
   * `escapeHtml(unsafe)` for a string or a missing value: a missing value and
   * the empty string give the empty string.
   */
  function EscapeHtml(unsafe: Option<string>): (r: string)
    ensures unsafe.None? ==> r == ""
    ensures unsafe.Some? ==> r == EscapeEach(unsafe.value)
  {
    if unsafe.None? || unsafe.value == "" then ""
    else
      ChainIsPerCharacter(unsafe.value);
      ReplaceChain(unsafe.value)
  }

  /** The entity for one character, or the character itself. */
  function EscapeChar(c: char): string {
    if c == '&' then "&amp;"
    else if c == '<' then "&lt;"
    else if c == '>' then "&gt;"
    else if c == '"' then "&quot;"
    else if c == '\'' then "&#039;"
    else [c]
  }

  /** The per-character reference: each character mapped on its own. */
  function EscapeEach(s: string): string
    decreases |s|
  {
    if s == [] then "" else EscapeChar(s[0]) + EscapeEach(s[1..])
  }

  lemma {:induction false} ReplaceAllConcat(a: string, b: string, c: char, rep: string)
    ensures ReplaceAll(a + b, c, rep) == ReplaceAll(a, c, rep) + ReplaceAll(b, c, rep)
    decreases |a|
  {
    if a != [] {
      assert (a + b)[1..] == a[1..] + b;
      ReplaceAllConcat(a[1..], b, c, rep);
    } else {
      assert a + b == b;
    }
  }

  lemma ChainConcat(a: string, b: string)
    ensures ReplaceChain(a + b) == ReplaceChain(a) + ReplaceChain(b)
  {
    var s1a, s1b := ReplaceAll(a, '&', "&amp;"), ReplaceAll(b, '&', "&amp;");
    ReplaceAllConcat(a, b, '&', "&amp;");
    var s2a, s2b := ReplaceAll(s1a, '<', "&lt;"), ReplaceAll(s1b, '<', "&lt;");
    ReplaceAllConcat(s1a, s1b, '<', "&lt;");
    var s3a, s3b := ReplaceAll(s2a, '>', "&gt;"), ReplaceAll(s2b, '>', "&gt;");
    ReplaceAllConcat(s2a, s2b, '>', "&gt;");
    var s4a, s4b := ReplaceAll(s3a, '"', "&quot;"), ReplaceAll(s3b, '"', "&quot;");
    ReplaceAllConcat(s3a, s3b, '"', "&quot;");
    ReplaceAllConcat(s4a, s4b, '\'', "&#039;");
  }

  /** A string without `c` is left alone by a replacement of `c`. */
  lemma {:induction false} ReplaceAbsent(s: string, c: char, rep: string)
    requires c !in s
    ensures ReplaceAll(s, c, rep) == s
    decreases |s|
  {
    if s != [] {
      ReplaceAbsent(s[1..], c, rep);
    }
  }

  /** A replacement on a one-character string. */
  lemma ReplaceOne(c: char, x: char, rep: string)
    ensures ReplaceAll([c], x, rep) == if c == x then rep else [c]
  {
    assert [c][1..] == [];
  }

  /** The last four replacements of the chain, on a string holding none of `< > " '`. */
  lemma TailOfChainAbsent(s: string)
    requires '<' !in s && '>' !in s && '"' !in s && '\'' !in s
    ensures ReplaceAll(ReplaceAll(ReplaceAll(ReplaceAll(s, '<', "&lt;"), '>', "&gt;"), '"', "&quot;"), '\'', "&#039;") == s
  {
    ReplaceAbsent(s, '<', "&lt;");
    ReplaceAbsent(s, '>', "&gt;");
    ReplaceAbsent(s, '"', "&quot;");
    ReplaceAbsent(s, '\'', "&#039;");
  }

  /** The chain on one character gives that character's entity. */
  lemma ChainOnChar(c: char)
    ensures ReplaceChain([c]) == EscapeChar(c)
  {
    ReplaceOne(c, '&', "&amp;");
    if c == '&' {
      TailOfChainAbsent("&amp;");
    } else {
      ReplaceOne(c, '<', "&lt;");
      if c == '<' {
        TailOfChainAbsent2("&lt;");
      } else {
        ReplaceOne(c, '>', "&gt;");
        if c == '>' {
          ReplaceAbsent("&gt;", '"', "&quot;");
          ReplaceAbsent("&gt;", '\'', "&#039;");
        } else {
          ReplaceOne(c, '"', "&quot;");
          if c == '"' {
            ReplaceAbsent("&quot;", '\'', "&#039;");
          } else {
            ReplaceOne(c, '\'', "&#039;");
          }
        }
      }
    }
  }

  /** The last three replacements of the chain, on a string holding none of `> " '`. */
  lemma TailOfChainAbsent2(s: string)
    requires '>' !in s && '"' !in s && '\'' !in s
    ensures ReplaceAll(ReplaceAll(ReplaceAll(s, '>', "&gt;"), '"', "&quot;"), '\'', "&#039;") == s
  {
    ReplaceAbsent(s, '>', "&gt;");
    ReplaceAbsent(s, '"', "&quot;");
    ReplaceAbsent(s, '\'', "&#039;");
  }

  /**
   * Because the ampersand is replaced first, the chain of replacements is
   * the per-character mapping: no entity it introduces is escaped again.
   */
  lemma {:induction false} ChainIsPerCharacter(s: string)
    ensures ReplaceChain(s) == EscapeEach(s)
    decreases |s|
  {
    if s != [] {
      assert s == [s[0]] + s[1..];
      ChainConcat([s[0]], s[1..]);
      ChainOnChar(s[0]);
      ChainIsPerCharacter(s[1..]);
    }
  }

  /** The escaped text holds none of the characters that open a tag or end an attribute. */
  lemma {:induction false} EscapedIsInert(s: string)
    ensures var r := EscapeEach(s); '<' !in r && '>' !in r && '"' !in r && '\'' !in r
    decreases |s|
  {
    if s != [] {
      EscapedIsInert(s[1..]);
      EscapeCharInert(s[0]);
      assert EscapeEach(s) == EscapeChar(s[0]) + EscapeEach(s[1..]);
    }
  }

  /** The escape of one character holds none of < > " '. */
  lemma EscapeCharInert(c: char)
    ensures var e := EscapeChar(c); '<' !in e && '>' !in e && '"' !in e && '\'' !in e
  {
  }

  /** Reads the five entities back into their characters; anything else is kept. */
  function Unescape(s: string): string
    decreases |s|
  {
    if s == [] then ""
    else if "&amp;" <= s then "&" + Unescape(s[5..])
    else if "&lt;" <= s then "<" + Unescape(s[4..])
    else if "&gt;" <= s then ">" + Unescape(s[4..])
    else if "&quot;" <= s then "\"" + Unescape(s[6..])
    else if "&#039;" <= s then "'" + Unescape(s[6..])
    else [s[0]] + Unescape(s[1..])
  }

  lemma UnescapeStep(c: char, t: string)
    ensures Unescape(EscapeChar(c) + t) == [c] + Unescape(t)
  {
    if c == '&' || c == '<' || c == '>' || c == '"' || c == '\'' {
      UnescapeEntity(c, t);
    } else {
      UnescapePlain(c, t);
    }
  }

  /** A character that is not escaped is read back as itself. */
  lemma UnescapePlain(c: char, t: string)
    requires c != '&' && c != '<' && c != '>' && c != '"' && c != '\''
    ensures Unescape(EscapeChar(c) + t) == [c] + Unescape(t)
  {
    var s := [c] + t;
    assert EscapeChar(c) == [c];
    assert s[0] == c && s[1..] == t;
  }

  /** Each of the five entities is read back as its character. */
  lemma UnescapeEntity(c: char, t: string)
    requires c == '&' || c == '<' || c == '>' || c == '"' || c == '\''
    ensures Unescape(EscapeChar(c) + t) == [c] + Unescape(t)
  {
    var e := EscapeChar(c);
    var s := e + t;
    assert s[|e|..] == t;
    if c == '&' {
      assert s[..5] == "&amp;";
    } else if c == '<' {
      assert s[..4] == "&lt;" && s[1] == 'l';
    } else if c == '>' {
      assert s[..4] == "&gt;" && s[1] == 'g';
    } else if c == '"' {
      assert s[..6] == "&quot;" && s[1] == 'q';
    } else {
      assert s[..6] == "&#039;" && s[1] == '#';
    }
  }

  /** Unescaping undoes `escapeHtml`: nothing is lost by escaping. */
  lemma {:induction false} UnescapeEscape(s: string)
    ensures Unescape(EscapeEach(s)) == s
    decreases |s|
  {
    if s != [] {
      UnescapeStep(s[0], EscapeEach(s[1..]));
      UnescapeEscape(s[1..]);
    }
  }

  // ---------------------------------------------------------------------
  // Devices
  // ---------------------------------------------------------------------

  /** A row of `MOCK_DATA.devices`. */
  datatype Device = Device(name: string, ip: string, status: string)

  /** The action the table's button offers for a device status. */
  function ActionFor(status: string): (action: string)
    ensures action == "block" <==> status == "connected"
    ensures action == "unblock" <==> status != "connected"
  {
    if status == "connected" then "block" else "unblock"
  }

  /** The status `handleDeviceAction` gives a device for an action. */
  function NextStatus(action: string): (status: string)
    ensures status == "blocked" <==> action == "block"
    ensures status == "connected" <==> action != "block"
  {
    if action == "block" then "blocked" else "connected"
  }

  /** Taking the action the table offers toggles a device between connected and blocked. */
  lemma OfferedActionToggles(status: string)
    ensures NextStatus(ActionFor(status)) == if status == "connected" then "blocked" else "connected"
  {
  }

  /** One row of the device table: the escaped cells, the badge text and the button. */
  datatype DeviceRow = DeviceRow(nameCell: string, ipCell: string, badge: string, action: string, button: string)

  /** What `renderDevices` is given: something that is not an array, or a list of devices. */
  datatype DevicesInput = NotAnArray | DeviceArray(devices: seq<Device>)

  function RenderRow(d: Device): (row: DeviceRow)
    ensures row.action == ActionFor(d.status)
    ensures row.nameCell == EscapeEach(if d.name == "" then "Desconocido" else d.name)
    ensures row.ipCell == EscapeEach(d.ip)
  {
    var connected := d.status == "connected";
    DeviceRow(EscapeHtml(Some(if d.name == "" then "Desconocido" else d.name)), EscapeHtml(Some(d.ip)),
              if connected then "Conectado" else "Bloqueado",
              ActionFor(d.status),
              if connected then "Bloquear" else "Permitir")
  }

  /**
   * `renderDevices`: nothing for input that is not an array (the table is
   * left as it was), else one row per device, in order.
   */
  function RenderDevices(input: DevicesInput): (rows: Option<seq<DeviceRow>>)
    ensures input.NotAnArray? <==> rows.None?
    ensures input.DeviceArray? ==> |rows.value| == |input.devices|
    ensures input.DeviceArray? ==>
              forall k :: 0 <= k < |input.devices| ==>
                rows.value[k].action == ActionFor(input.devices[k].status)
                && rows.value[k].ipCell == EscapeEach(input.devices[k].ip)
    ensures input.DeviceArray? ==> forall k :: 0 <= k < |input.devices| ==> rows.value[k] == RenderRow(input.devices[k])
  {
    match input
    case NotAnArray => None
    case DeviceArray(devices) => Some(seq(|devices|, k requires 0 <= k < |devices| => RenderRow(devices[k])))
  }

  /** `devices.find(d => d.ip === ip)`: the index of the first device with that address. */
  function FindDevice(devices: seq<Device>, ip: string): (k: Option<nat>)
    ensures k.Some? ==> k.value < |devices| && devices[k.value].ip == ip
    ensures k.Some? ==> forall j :: 0 <= j < k.value ==> devices[j].ip != ip
    ensures k.None? ==> forall j :: 0 <= j < |devices| ==> devices[j].ip != ip
    decreases |devices|
  {
    if devices == [] then None
    else if devices[0].ip == ip then Some(0)
    else
      match FindDevice(devices[1..], ip)
      case None => None
      case Some(k) => Some(k + 1)
  }

  // ---------------------------------------------------------------------
  // Blocked sites and schedules
  // ---------------------------------------------------------------------

  /** An entry `{ url }` of the blocked-sites list. */
  datatype Site = Site(url: string)

  /** An entry `{ startTime, endTime, action }` of the schedule list. */
  datatype Schedule = Schedule(startTime: string, endTime: string, action: string)

  /** No url appears twice in the list. */
  predicate UniqueUrls(sites: seq<Site>) {
    forall i, j :: 0 <= i < j < |sites| ==> sites[i].url != sites[j].url
  }

  /** `sites.filter(s => s.url !== url)`. */
  function RemoveUrl(sites: seq<Site>, url: string): (r: seq<Site>)
    ensures forall s :: s in r <==> s in sites && s.url != url
    ensures |r| <= |sites|
    decreases |sites|
  {
    if sites == [] then []
    else if sites[0].url == url then RemoveUrl(sites[1..], url)
    else [sites[0]] + RemoveUrl(sites[1..], url)
  }

  /** The filter works entry by entry, so the entries it keeps stay in their order. */
  lemma {:induction false} RemoveUrlConcat(a: seq<Site>, b: seq<Site>, url: string)
    ensures RemoveUrl(a + b, url) == RemoveUrl(a, url) + RemoveUrl(b, url)
    decreases |a|
  {
    if a == [] {
      assert a + b == b;
    } else {
      assert (a + b)[1..] == a[1..] + b;
      RemoveUrlConcat(a[1..], b, url);
    }
  }

  /** A list without the url is kept whole, so removing twice is removing once. */
  lemma {:induction false} RemoveUrlAbsent(sites: seq<Site>, url: string)
    requires forall s :: s in sites ==> s.url != url
    ensures RemoveUrl(sites, url) == sites
    decreases |sites|
  {
    if sites != [] {
      RemoveUrlAbsent(sites[1..], url);
    }
  }

  /** Removing keeps the urls unique. */
  lemma {:induction false} RemoveUrlUnique(sites: seq<Site>, url: string)
    requires UniqueUrls(sites)
    ensures UniqueUrls(RemoveUrl(sites, url))
    decreases |sites|
  {
    if sites != [] {
      RemoveUrlUnique(sites[1..], url);
      var rest := RemoveUrl(sites[1..], url);
      if sites[0].url != url {
        forall s | s in rest ensures s.url != sites[0].url {
          var j :| 0 <= j < |sites[1..]| && sites[1..][j] == s;
          assert sites[j + 1] == s;
        }
        ConsUnique(sites[0], rest);
      }
    }
  }

  lemma ConsUnique(x: Site, rest: seq<Site>)
    requires UniqueUrls(rest)
    requires forall s :: s in rest ==> s.url != x.url
    ensures UniqueUrls([x] + rest)
  {
    var l := [x] + rest;
    forall i, j | 0 <= i < j < |l| ensures l[i].url != l[j].url {
      assert l[j] == rest[j - 1];
      if i > 0 {
        assert l[i] == rest[i - 1];
      } else {
        assert rest[j - 1] in rest;
      }
    }
  }

  /** `MOCK_DATA`: the lists the development-mode operations change in place. */
  class MockData {
    var devices: seq<Device>
    var blockedSites: seq<Site>
    var schedules: seq<Schedule>

    ghost predicate Valid()
      reads this
    {
      UniqueUrls(blockedSites)
    }

    /** The initial mock lists: three devices, two blocked sites, no schedules. */
    constructor ()
      ensures Valid()
      ensures devices == [Device("PC-Juan", "192.168.1.10", "connected"),
                          Device("Phone-Maria", "192.168.1.11", "connected"),
                          Device("Tablet-Luis", "192.168.1.12", "blocked")]
      ensures blockedSites == [Site("facebook.com"), Site("twitter.com")]
      ensures schedules == []
    {
      devices := [Device("PC-Juan", "192.168.1.10", "connected"),
                  Device("Phone-Maria", "192.168.1.11", "connected"),
                  Device("Tablet-Luis", "192.168.1.12", "blocked")];
      blockedSites := [Site("facebook.com"), Site("twitter.com")];
      schedules := [];
    }
  }

  /** `AppState`: the flag the loaders raise and lower. */
  class AppState {
    var isLoading: bool

    constructor ()
      ensures !isLoading
    {
      isLoading := false;
    }

    /** `showLoader`: an operation is under way. */
    method ShowLoader()
      modifies this
      ensures isLoading
    {
      isLoading := true;
    }

    /** `hideLoader`: no operation is under way. */
    method HideLoader()
      modifies this
      ensures !isLoading
    {
      isLoading := false;
    }
  }

  /**
   * `handleDeviceAction(ip, action)` in development mode: the first device
   * with that address gets the status of the action; nothing else changes.
   */
  method HandleDeviceAction(state: AppState, data: MockData, ip: string, action: string)
    modifies state, data
    ensures data.blockedSites == old(data.blockedSites) && data.schedules == old(data.schedules)
    ensures |data.devices| == |old(data.devices)|
    ensures ip == "" || action == "" ==> data.devices == old(data.devices) && state.isLoading == old(state.isLoading)
    ensures ip != "" && action != "" ==> !state.isLoading
    ensures ip != "" && action != "" ==>
              match FindDevice(old(data.devices), ip)
              case None => data.devices == old(data.devices)
              case Some(k) =>
                && data.devices[k] == old(data.devices)[k].(status := NextStatus(action))
                && forall j :: 0 <= j < |data.devices| && j != k ==> data.devices[j] == old(data.devices)[j]
  {
    if ip == "" || action == "" {
      return;
    }
    state.ShowLoader();
    var found := FindDevice(data.devices, ip);
    if found.Some? {
      var k := found.value;
      data.devices := data.devices[k := data.devices[k].(status := NextStatus(action))];
    }
    state.HideLoader();
  }

  /**
   * `addBlockedSite(url)` in development mode: an empty or already listed
   * url leaves the list as it was, any other is appended.
   */
  method AddBlockedSite(state: AppState, data: MockData, url: string)
    requires data.Valid()
    modifies state, data
    ensures data.Valid()
    ensures data.devices == old(data.devices) && data.schedules == old(data.schedules)
    ensures data.blockedSites == if url == "" || Site(url) in old(data.blockedSites) then old(data.blockedSites)
                                 else old(data.blockedSites) + [Site(url)]
    ensures url == "" ==> state.isLoading == old(state.isLoading)
    ensures url != "" ==> !state.isLoading
  {
    if url == "" {
      return;
    }
    state.ShowLoader();
    if Site(url) !in data.blockedSites {
      AppendUnique(data.blockedSites, Site(url));
      data.blockedSites := data.blockedSites + [Site(url)];
    }
    state.HideLoader();
  }

  lemma AppendUnique(sites: seq<Site>, x: Site)
    requires UniqueUrls(sites) && x !in sites
    ensures UniqueUrls(sites + [x])
  {
    var l := sites + [x];
    forall i, j | 0 <= i < j < |l| ensures l[i].url != l[j].url {
      if j == |sites| {
        assert l[i] == sites[i];
        assert sites[i] != x;
      }
    }
  }

  /** `unblockSite(url)` in development mode: every entry with that url goes, the rest stay in order. */
  method UnblockSite(state: AppState, data: MockData, url: string)
    requires data.Valid()
    modifies state, data
    ensures data.Valid()
    ensures data.devices == old(data.devices) && data.schedules == old(data.schedules)
    ensures data.blockedSites == if url == "" then old(data.blockedSites) else RemoveUrl(old(data.blockedSites), url)
    ensures url == "" ==> state.isLoading == old(state.isLoading)
    ensures url != "" ==> !state.isLoading
  {
    if url == "" {
      return;
    }
    state.ShowLoader();
    RemoveUrlUnique(data.blockedSites, url);
    data.blockedSites := RemoveUrl(data.blockedSites, url);
    state.HideLoader();
  }

  /**
   * `saveSchedule(start, end, action)` in development mode: with every field
   * filled in, exactly one entry is appended; the times are not compared.
   */
  method SaveSchedule(state: AppState, data: MockData, startTime: string, endTime: string, action: string)
    modifies state, data
    ensures data.devices == old(data.devices) && data.blockedSites == old(data.blockedSites)
    ensures data.schedules == if startTime == "" || endTime == "" || action == "" then old(data.schedules)
                              else old(data.schedules) + [Schedule(startTime, endTime, action)]
    ensures startTime == "" || endTime == "" || action == "" ==> state.isLoading == old(state.isLoading)
    ensures startTime != "" && endTime != "" && action != "" ==> !state.isLoading
  {
    if startTime == "" || endTime == "" || action == "" {
      return;
    }
    state.ShowLoader();
    data.schedules := data.schedules + [Schedule(startTime, endTime, action)];
    state.HideLoader();
  }

  // ---------------------------------------------------------------------
  // Event handlers, gated by AppState.isLoading
  // ---------------------------------------------------------------------

  /** The device table's click handler: nothing while an operation is under way. */
  method OnDeviceClick(state: AppState, data: MockData, ip: string, action: string) returns (started: bool)
    modifies state, data
    ensures started == !old(state.isLoading)
    ensures !started ==> unchanged(state, data)
    ensures started ==> data.blockedSites == old(data.blockedSites) && data.schedules == old(data.schedules)
    ensures started ==> |data.devices| == |old(data.devices)|
    ensures started && (ip == "" || action == "") ==> data.devices == old(data.devices)
    ensures started && ip != "" && action != "" ==>
              match FindDevice(old(data.devices), ip)
              case None => data.devices == old(data.devices)
              case Some(k) =>
                && data.devices[k] == old(data.devices)[k].(status := NextStatus(action))
                && forall j :: 0 <= j < |data.devices| && j != k ==> data.devices[j] == old(data.devices)[j]
  {
    if state.isLoading {
      return false;
    }
    HandleDeviceAction(state, data, ip, action);
    return true;
  }

  /** The add-rule button: the input is trimmed and handed to `addBlockedSite`. */
  method OnAddRule(state: AppState, data: MockData, input: string) returns (started: bool)
    requires data.Valid()
    modifies state, data
    ensures data.Valid()
    ensures started == !old(state.isLoading)
    ensures !started ==> unchanged(state, data)
    ensures started ==> data.devices == old(data.devices) && data.schedules == old(data.schedules)
    ensures started ==> data.blockedSites == if Trim(input) == "" || Site(Trim(input)) in old(data.blockedSites)
                                             then old(data.blockedSites)
                                             else old(data.blockedSites) + [Site(Trim(input))]
  {
    if state.isLoading {
      return false;
    }
    AddBlockedSite(state, data, Trim(input));
    return true;
  }

  /** The blocked-site list's click handler. */
  method OnUnblockClick(state: AppState, data: MockData, url: string) returns (started: bool)
    requires data.Valid()
    modifies state, data
    ensures data.Valid()
    ensures started == !old(state.isLoading)
    ensures !started ==> unchanged(state, data)
    ensures started ==> data.devices == old(data.devices) && data.schedules == old(data.schedules)
    ensures started ==> data.blockedSites == if url == "" then old(data.blockedSites)
                                             else RemoveUrl(old(data.blockedSites), url)
  {
    if state.isLoading {
      return false;
    }
    UnblockSite(state, data, url);
    return true;
  }

  /** The schedule form's submit handler. */
  method OnScheduleSubmit(state: AppState, data: MockData, startTime: string, endTime: string, action: string)
    returns (started: bool)
    modifies state, data
    ensures started == !old(state.isLoading)
    ensures !started ==> unchanged(state, data)
    ensures started ==> data.devices == old(data.devices) && data.blockedSites == old(data.blockedSites)
    ensures started ==> data.schedules == if startTime == "" || endTime == "" || action == "" then old(data.schedules)
                                          else old(data.schedules) + [Schedule(startTime, endTime, action)]
  {
    if state.isLoading {
      return false;
    }
    SaveSchedule(state, data, startTime, endTime, action);
    return true;
  }
}
