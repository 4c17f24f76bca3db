/** The device's settings by family: what posting one stores, what printing it shows, and that
    no secret is ever shown. */
module DeviceSettings {
  import opened Crc24
  import opened JsonCompat
  import opened JsonForms
  import opened Config
  import opened ConfigPost
  import opened ConfigTable

  const SECRETS: seq<string> := [
    "adm_pass", "ntrip1_pass", "ntrip2_pass", "caster_pass", "w_ap_pass", "w_sta_pass"
  ]

  const PORTS: seq<string> := [
    "ntrip1_port", "ntrip2_port", "caster_port", "tcp_srv_port"
  ]

  const SPEEDS: seq<string> := [
    "uart_baud_rate"
  ]

  const ADDRESSES: seq<string> := [
    "w_ap_gw", "w_sta_ip", "w_sta_gw", "w_sta_dns_a", "w_sta_dns_b"
  ]

  const SWITCHES: seq<string> := [
    "ntrip1_active", "ntrip2_active", "caster_active", "tcp_srv_active", "uart_fc_rts", "uart_fc_cts",
    "w_ap_active", "w_ap_ssid_hid", "w_sta_active", "w_sta_scan_mode", "w_sta_static"
  ]

  const NUMBERS: seq<string> := [
    "adm_auth", "uart_num", "uart_rx_pin", "uart_tx_pin", "uart_rts_pin", "uart_cts_pin", "uart_data_bits",
    "uart_stop_bits", "uart_parity", "w_ap_auth_mode", "w_ap_subnet", "w_sta_subnet"
  ]

  const TEXTS: seq<string> := [
    "adm_user", "time_tz", "host_name", "ntrip1_host", "ntrip1_mp", "ntrip1_user", "ntrip2_host", "ntrip2_mp",
    "ntrip2_user", "caster_mp", "caster_user", "w_ap_ssid", "w_sta_ssid"
  ]

  predicate Has(key: string, kind: Kind) {
    Item(key, kind) in CONFIG_ITEMS
  }

  /** All keys of a family are items of one kind. */
  ghost predicate AllOfKind(keys: seq<string>, kind: Kind) {
    forall n :: 0 <= n < |keys| ==> Has(keys[n], kind)
  }

  ghost predicate Within(group: seq<Item>) {
    forall item :: item in group ==> item in CONFIG_ITEMS
  }

  /** The table is made of its groups. */
  lemma Groups()
    ensures Within(ADMIN) && Within(NTRIP1) && Within(NTRIP2) && Within(CASTER)
    ensures Within(TCP_SERVER) && Within(UART_PINS) && Within(UART_LINE) && Within(UART_OPTIONS)
    ensures Within(WIFI_AP) && Within(WIFI_AP_NET) && Within(WIFI_STA) && Within(WIFI_STA_MODE)
    ensures Within(WIFI_STA_IP) && Within(WIFI_STA_DNS)
  {
    hide ADMIN, NTRIP1, NTRIP2, CASTER, TCP_SERVER, UART_PINS, UART_LINE,
         UART_OPTIONS, WIFI_AP, WIFI_AP_NET, WIFI_STA, WIFI_STA_MODE, WIFI_STA_IP, WIFI_STA_DNS;
  }

  lemma InTable(group: seq<Item>, n: nat, key: string, kind: Kind)
    requires Within(group) && n < |group| && group[n] == Item(key, kind)
    ensures Has(key, kind)
  {
    hide CONFIG_ITEMS;
  }

  lemma AdminHas()
    ensures Has("adm_auth", U8Item)
    ensures Has("adm_user", StrItem)
    ensures Has("adm_pass", SecretItem)
    ensures Has("time_tz", StrItem)
    ensures Has("host_name", StrItem)
  {
    hide CONFIG_ITEMS, Has, Within;
    Groups();
    InTable(ADMIN, 0, "adm_auth", U8Item);
    InTable(ADMIN, 1, "adm_user", StrItem);
    InTable(ADMIN, 2, "adm_pass", SecretItem);
    InTable(ADMIN, 3, "time_tz", StrItem);
    InTable(ADMIN, 4, "host_name", StrItem);
  }

  lemma Ntrip1Has()
    ensures Has("ntrip1_active", BoolItem)
    ensures Has("ntrip1_host", StrItem)
    ensures Has("ntrip1_port", U16Item)
    ensures Has("ntrip1_mp", StrItem)
    ensures Has("ntrip1_user", StrItem)
    ensures Has("ntrip1_pass", SecretItem)
  {
    hide CONFIG_ITEMS, Has, Within;
    Groups();
    InTable(NTRIP1, 0, "ntrip1_active", BoolItem);
    InTable(NTRIP1, 1, "ntrip1_host", StrItem);
    InTable(NTRIP1, 2, "ntrip1_port", U16Item);
    InTable(NTRIP1, 3, "ntrip1_mp", StrItem);
    InTable(NTRIP1, 4, "ntrip1_user", StrItem);
    InTable(NTRIP1, 5, "ntrip1_pass", SecretItem);
  }

  lemma Ntrip2Has()
    ensures Has("ntrip2_active", BoolItem)
    ensures Has("ntrip2_host", StrItem)
    ensures Has("ntrip2_port", U16Item)
    ensures Has("ntrip2_mp", StrItem)
    ensures Has("ntrip2_user", StrItem)
    ensures Has("ntrip2_pass", SecretItem)
  {
    hide CONFIG_ITEMS, Has, Within;
    Groups();
    InTable(NTRIP2, 0, "ntrip2_active", BoolItem);
    InTable(NTRIP2, 1, "ntrip2_host", StrItem);
    InTable(NTRIP2, 2, "ntrip2_port", U16Item);
    InTable(NTRIP2, 3, "ntrip2_mp", StrItem);
    InTable(NTRIP2, 4, "ntrip2_user", StrItem);
    InTable(NTRIP2, 5, "ntrip2_pass", SecretItem);
  }

  lemma CasterHas()
    ensures Has("caster_active", BoolItem)
    ensures Has("caster_port", U16Item)
    ensures Has("caster_mp", StrItem)
    ensures Has("caster_user", StrItem)
    ensures Has("caster_pass", SecretItem)
  {
    hide CONFIG_ITEMS, Has, Within;
    Groups();
    InTable(CASTER, 0, "caster_active", BoolItem);
    InTable(CASTER, 1, "caster_port", U16Item);
    InTable(CASTER, 2, "caster_mp", StrItem);
    InTable(CASTER, 3, "caster_user", StrItem);
    InTable(CASTER, 4, "caster_pass", SecretItem);
  }

  lemma TcpServerHas()
    ensures Has("tcp_srv_active", BoolItem)
    ensures Has("tcp_srv_port", U16Item)
  {
    hide CONFIG_ITEMS, Has, Within;
    Groups();
    InTable(TCP_SERVER, 0, "tcp_srv_active", BoolItem);
    InTable(TCP_SERVER, 1, "tcp_srv_port", U16Item);
  }

  lemma UartPinsHas()
    ensures Has("uart_num", U8Item)
    ensures Has("uart_rx_pin", U8Item)
    ensures Has("uart_tx_pin", U8Item)
    ensures Has("uart_rts_pin", U8Item)
    ensures Has("uart_cts_pin", U8Item)
  {
    hide CONFIG_ITEMS, Has, Within;
    Groups();
    InTable(UART_PINS, 0, "uart_num", U8Item);
    InTable(UART_PINS, 1, "uart_rx_pin", U8Item);
    InTable(UART_PINS, 2, "uart_tx_pin", U8Item);
    InTable(UART_PINS, 3, "uart_rts_pin", U8Item);
    InTable(UART_PINS, 4, "uart_cts_pin", U8Item);
  }

  lemma UartLineHas()
    ensures Has("uart_baud_rate", U32Item)
    ensures Has("uart_data_bits", U8Item)
    ensures Has("uart_stop_bits", U8Item)
  {
    hide CONFIG_ITEMS, Has, Within;
    Groups();
    InTable(UART_LINE, 0, "uart_baud_rate", U32Item);
    InTable(UART_LINE, 1, "uart_data_bits", U8Item);
    InTable(UART_LINE, 2, "uart_stop_bits", U8Item);
  }

  lemma UartOptionsHas()
    ensures Has("uart_parity", U8Item)
    ensures Has("uart_fc_rts", BoolItem)
    ensures Has("uart_fc_cts", BoolItem)
  {
    hide CONFIG_ITEMS, Has, Within;
    Groups();
    InTable(UART_OPTIONS, 0, "uart_parity", U8Item);
    InTable(UART_OPTIONS, 1, "uart_fc_rts", BoolItem);
    InTable(UART_OPTIONS, 2, "uart_fc_cts", BoolItem);
  }

  lemma WifiApHas()
    ensures Has("w_ap_active", BoolItem)
    ensures Has("w_ap_ssid", StrItem)
    ensures Has("w_ap_ssid_hid", BoolItem)
    ensures Has("w_ap_auth_mode", U8Item)
  {
    hide CONFIG_ITEMS, Has, Within;
    Groups();
    InTable(WIFI_AP, 0, "w_ap_active", BoolItem);
    InTable(WIFI_AP, 1, "w_ap_ssid", StrItem);
    InTable(WIFI_AP, 2, "w_ap_ssid_hid", BoolItem);
    InTable(WIFI_AP, 3, "w_ap_auth_mode", U8Item);
  }

  lemma WifiApNetHas()
    ensures Has("w_ap_pass", SecretItem)
    ensures Has("w_ap_gw", IpItem)
    ensures Has("w_ap_subnet", U8Item)
  {
    hide CONFIG_ITEMS, Has, Within;
    Groups();
    InTable(WIFI_AP_NET, 0, "w_ap_pass", SecretItem);
    InTable(WIFI_AP_NET, 1, "w_ap_gw", IpItem);
    InTable(WIFI_AP_NET, 2, "w_ap_subnet", U8Item);
  }

  lemma WifiStaHas()
    ensures Has("w_sta_active", BoolItem)
    ensures Has("w_sta_ssid", StrItem)
    ensures Has("w_sta_pass", SecretItem)
  {
    hide CONFIG_ITEMS, Has, Within;
    Groups();
    InTable(WIFI_STA, 0, "w_sta_active", BoolItem);
    InTable(WIFI_STA, 1, "w_sta_ssid", StrItem);
    InTable(WIFI_STA, 2, "w_sta_pass", SecretItem);
  }

  lemma WifiStaModeHas()
    ensures Has("w_sta_scan_mode", BoolItem)
    ensures Has("w_sta_static", BoolItem)
    ensures Has("w_sta_ip", IpItem)
  {
    hide CONFIG_ITEMS, Has, Within;
    Groups();
    InTable(WIFI_STA_MODE, 0, "w_sta_scan_mode", BoolItem);
    InTable(WIFI_STA_MODE, 1, "w_sta_static", BoolItem);
    InTable(WIFI_STA_MODE, 2, "w_sta_ip", IpItem);
  }

  lemma WifiStaIpHas()
    ensures Has("w_sta_gw", IpItem)
    ensures Has("w_sta_subnet", U8Item)
  {
    hide CONFIG_ITEMS, Has, Within;
    Groups();
    InTable(WIFI_STA_IP, 0, "w_sta_gw", IpItem);
    InTable(WIFI_STA_IP, 1, "w_sta_subnet", U8Item);
  }

  lemma WifiStaDnsHas()
    ensures Has("w_sta_dns_a", IpItem)
    ensures Has("w_sta_dns_b", IpItem)
  {
    hide CONFIG_ITEMS, Has, Within;
    Groups();
    InTable(WIFI_STA_DNS, 0, "w_sta_dns_a", IpItem);
    InTable(WIFI_STA_DNS, 1, "w_sta_dns_b", IpItem);
  }

  lemma SecretsInTable()
    ensures AllOfKind(SECRETS, SecretItem)
  {
    hide CONFIG_ITEMS, Has;
    AdminHas();
    Ntrip1Has();
    Ntrip2Has();
    CasterHas();
    WifiApNetHas();
    WifiStaHas();
  }

  lemma PortsInTable()
    ensures AllOfKind(PORTS, U16Item)
  {
    hide CONFIG_ITEMS, Has;
    Ntrip1Has();
    Ntrip2Has();
    CasterHas();
    TcpServerHas();
  }

  lemma SpeedsInTable()
    ensures AllOfKind(SPEEDS, U32Item)
  {
    hide CONFIG_ITEMS, Has;
    UartLineHas();
  }

  lemma AddressesInTable()
    ensures AllOfKind(ADDRESSES, IpItem)
  {
    hide CONFIG_ITEMS, Has;
    WifiApNetHas();
    WifiStaModeHas();
    WifiStaIpHas();
    WifiStaDnsHas();
  }

  lemma SwitchesInTable()
    ensures AllOfKind(SWITCHES, BoolItem)
  {
    hide CONFIG_ITEMS, Has;
    Ntrip1Has();
    Ntrip2Has();
    CasterHas();
    TcpServerHas();
    UartOptionsHas();
    WifiApHas();
    WifiStaHas();
    WifiStaModeHas();
  }

  lemma NumbersInTable()
    ensures AllOfKind(NUMBERS, U8Item)
  {
    hide CONFIG_ITEMS, Has;
    AdminHas();
    UartPinsHas();
    UartLineHas();
    UartOptionsHas();
    WifiApHas();
    WifiApNetHas();
    WifiStaIpHas();
  }

  lemma TextsInTable()
    ensures AllOfKind(TEXTS, StrItem)
  {
    hide CONFIG_ITEMS, Has;
    AdminHas();
    Ntrip1Has();
    Ntrip2Has();
    CasterHas();
    WifiApHas();
    WifiStaHas();
  }

  // ---- No secret is shown ----

  lemma SecretAt(i: nat)
    requires i < |CONFIG_ITEMS| && CONFIG_ITEMS[i].key in SECRETS
    ensures CONFIG_ITEMS[i].kind == SecretItem
  {
    hide *;
    SecretsInTable();
    DeviceKeys();
    var n: nat :| n < |SECRETS| && SECRETS[n] == CONFIG_ITEMS[i].key;
    InFamily(SECRETS, SecretItem, n);
    OneItem(CONFIG_ITEMS, i, Item(SECRETS[n], SecretItem));
  }

  lemma InFamily(keys: seq<string>, kind: Kind, n: nat)
    requires AllOfKind(keys, kind) && n < |keys|
    ensures Item(keys[n], kind) in CONFIG_ITEMS
  {
    assert Has(keys[n], kind);
    hide CONFIG_ITEMS;
  }

  lemma OneItem(table: seq<Item>, i: nat, item: Item)
    requires DistinctKeys(table) && i < |table| && item in table && table[i].key == item.key
    ensures table[i] == item
  {}

  /** Two stores that differ in the six passwords only are printed alike: the web page cannot
      tell what they are. */
  lemma SecretsHidden(a: Entries, b: Entries)
    requires StoreOk(CONFIG_ITEMS, a) && StoreOk(CONFIG_ITEMS, b)
    requires forall key :: key !in SECRETS ==> Get(a, key) == Get(b, key)
    ensures ToJson(CONFIG_ITEMS, a) == ToJson(CONFIG_ITEMS, b)
  {
    hide CONFIG_ITEMS, SECRETS, Get, Print;
    forall i | 0 <= i < |CONFIG_ITEMS|
      ensures ToJson(CONFIG_ITEMS, a)[i] == ToJson(CONFIG_ITEMS, b)[i]
    {
      PrintedAlike(a, b, i);
    }
  }

  lemma PrintedAlike(a: Entries, b: Entries, i: nat)
    requires StoreOk(CONFIG_ITEMS, a) && StoreOk(CONFIG_ITEMS, b) && i < |CONFIG_ITEMS|
    requires forall key :: key !in SECRETS ==> Get(a, key) == Get(b, key)
    ensures ToJson(CONFIG_ITEMS, a)[i] == ToJson(CONFIG_ITEMS, b)[i]
  {
    hide CONFIG_ITEMS, SECRETS;
    var item := CONFIG_ITEMS[i];
    if item.key in SECRETS {
      SecretAt(i);
    } else {
      assert Get(a, item.key) == Get(b, item.key);
    }
  }

  // ---- What posting one setting does ----

  function Posted(key: string, j: Json, entries: Entries): Outcome {
    FromJson(Flash({}, true), [Field(key, j)], CONFIG_ITEMS, entries)
  }

  lemma PostedItem(keys: seq<string>, kind: Kind, key: string, j: Json, entries: Entries, v: Value)
    requires AllOfKind(keys, kind) && key in keys
    ensures Means(kind, j, v) ==> Posted(key, j, entries) == Outcome(entries[key := v], false)
    ensures MeansKeep(kind, j) ==> Posted(key, j, entries) == Outcome(entries, false)
    ensures Meaningless(kind, j) ==> Posted(key, j, entries) == Outcome(entries, true)
  {
    hide *;
    DeviceKeys();
    var n: nat :| n < |keys| && keys[n] == key;
    InFamily(keys, kind, n);
    var i: nat :| i < |CONFIG_ITEMS| && CONFIG_ITEMS[i] == Item(key, kind);
    OneField(CONFIG_ITEMS, i, j, entries, v);
    PostedIs(key, j, entries);
  }

  lemma PostedIs(key: string, j: Json, entries: Entries)
    ensures Posted(key, j, entries) == FromJson(Flash({}, true), [Field(key, j)], CONFIG_ITEMS, entries)
  {
    hide CONFIG_ITEMS, FromJson;
  }

  /** A port: every number below 2^16, as such or as text, is stored in that width; anything
      else leaves the store and is an error. */
  lemma PortPosted(key: string, j: Json, n: nat, entries: Entries)
    requires key in PORTS
    ensures IsNumber(j, n, 65535) ==> Posted(key, j, entries) == Outcome(entries[key := Half(n)], false)
    ensures NotANumber(j, 65535) ==> Posted(key, j, entries) == Outcome(entries, true)
    ensures Posted(key, Num(n as real), entries)
         == if n < 65536 then Outcome(entries[key := Half(n)], false) else Outcome(entries, true)
  {
    hide CONFIG_ITEMS, Posted, Numeral;
    PortsInTable();
    PostedItem(PORTS, U16Item, key, j, entries, Half(n));
    PostedItem(PORTS, U16Item, key, Num(n as real), entries, Half(n));
    if n >= 65536 { NoNumber(Num(n as real), 65535); }
  }

  /** A speed: every number below 2^32. */
  lemma SpeedPosted(key: string, j: Json, n: nat, entries: Entries)
    requires key in SPEEDS
    ensures IsNumber(j, n, UINT32 - 1) ==> Posted(key, j, entries) == Outcome(entries[key := Word(n)], false)
    ensures NotANumber(j, UINT32 - 1) ==> Posted(key, j, entries) == Outcome(entries, true)
    ensures Posted(key, Num(n as real), entries)
         == if n < UINT32 then Outcome(entries[key := Word(n)], false) else Outcome(entries, true)
  {
    hide CONFIG_ITEMS, Posted, Numeral;
    SpeedsInTable();
    PostedItem(SPEEDS, U32Item, key, j, entries, Word(n));
    PostedItem(SPEEDS, U32Item, key, Num(n as real), entries, Word(n));
    if n >= UINT32 { NoNumber(Num(n as real), UINT32 - 1); }
  }

  /** A small number: every number below 2^8. */
  lemma NumberPosted(key: string, j: Json, n: nat, entries: Entries)
    requires key in NUMBERS
    ensures IsNumber(j, n, 255) ==> Posted(key, j, entries) == Outcome(entries[key := Byte(n)], false)
    ensures NotANumber(j, 255) ==> Posted(key, j, entries) == Outcome(entries, true)
    ensures Posted(key, Num(n as real), entries)
         == if n < 256 then Outcome(entries[key := Byte(n)], false) else Outcome(entries, true)
  {
    hide CONFIG_ITEMS, Posted, Numeral;
    NumbersInTable();
    PostedItem(NUMBERS, U8Item, key, j, entries, Byte(n));
    PostedItem(NUMBERS, U8Item, key, Num(n as real), entries, Byte(n));
    if n >= 256 { NoNumber(Num(n as real), 255); }
  }

  /** A switch: true and false, 1 and 0, or their texts. */
  lemma SwitchPosted(key: string, j: Json, n: nat, entries: Entries)
    requires key in SWITCHES
    ensures IsSwitch(j, n) ==> Posted(key, j, entries) == Outcome(entries[key := Byte(n)], false)
    ensures !IsSwitch(j, 0) && !IsSwitch(j, 1) ==> Posted(key, j, entries) == Outcome(entries, true)
    ensures Posted(key, Num(n as real), entries)
         == if n <= 1 then Outcome(entries[key := Byte(n)], false) else Outcome(entries, true)
  {
    hide CONFIG_ITEMS, Posted, SameName;
    SwitchesInTable();
    PostedItem(SWITCHES, BoolItem, key, j, entries, Byte(n));
    PostedItem(SWITCHES, BoolItem, key, Num(n as real), entries, Byte(n));
    assert n as real == 0.0 || n as real == 1.0 <==> n <= 1;
  }

  /** An address: four numbers below 2^8, the first lowest in the word. */
  lemma AddressPosted(key: string, j: Json, n: nat, entries: Entries)
    requires key in ADDRESSES
    ensures IsAddress(j, n) ==> Posted(key, j, entries) == Outcome(entries[key := Word(n)], false)
    ensures NotAnAddress(j) ==> Posted(key, j, entries) == Outcome(entries, true)
  {
    hide CONFIG_ITEMS, Posted, IsAddress;
    AddressesInTable();
    PostedItem(ADDRESSES, IpItem, key, j, entries, Word(n));
  }

  lemma OctetsPosted(key: string, a: nat, b: nat, c: nat, d: nat, entries: Entries)
    requires key in ADDRESSES && a < 256 && b < 256 && c < 256 && d < 256
    ensures Posted(key, Arr([Num(a as real), Num(b as real), Num(c as real), Num(d as real)]), entries)
         == Outcome(entries[key := Word(a + 0x100 * b + 0x10000 * c + 0x1000000 * d)], false)
  {
    hide CONFIG_ITEMS, Posted, Numeral;
    var j := Arr([Num(a as real), Num(b as real), Num(c as real), Num(d as real)]);
    var n := FromOctets([a, b, c, d]);
    OctetsOf(a, b, c, d);
    AddressPosted(key, j, n, entries);
  }

  /** A text: any string. */
  lemma TextPosted(key: string, j: Json, entries: Entries)
    requires key in TEXTS
    ensures Posted(key, j, entries)
         == if j.Str? then Outcome(entries[key := Text(j.s)], false) else Outcome(entries, true)
  {
    hide CONFIG_ITEMS, Posted;
    TextsInTable();
    PostedItem(TEXTS, StrItem, key, j, entries, if j.Str? then Text(j.s) else Text(""));
  }

  /** A secret: any string, and the placeholder leaves it as it is. */
  lemma SecretPosted(key: string, j: Json, entries: Entries)
    requires key in SECRETS
    ensures Posted(key, j, entries)
         == if !j.Str? then Outcome(entries, true)
            else if j.s == CFG_VALUE_UNCHANGED then Outcome(entries, false)
            else Outcome(entries[key := Text(j.s)], false)
  {
    hide CONFIG_ITEMS, Posted, CFG_VALUE_UNCHANGED;
    SecretsInTable();
    PostedItem(SECRETS, SecretItem, key, j, entries, if j.Str? then Text(j.s) else Text(""));
  }
}
