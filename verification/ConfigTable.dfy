/** The configuration table of the device, and its round trip. */
module ConfigTable {
  import opened Config
  import opened JsonCompat

  const ADMIN: seq<Item> := [
    Item("adm_auth", U8Item),
    Item("adm_user", StrItem),
    Item("adm_pass", SecretItem),
    Item("time_tz", StrItem),
    Item("host_name", StrItem)
  ]

  const NTRIP1: seq<Item> := [
    Item("ntrip1_active", BoolItem),
    Item("ntrip1_host", StrItem),
    Item("ntrip1_port", U16Item),
    Item("ntrip1_mp", StrItem),
    Item("ntrip1_user", StrItem),
    Item("ntrip1_pass", SecretItem)
  ]

  const NTRIP2: seq<Item> := [
    Item("ntrip2_active", BoolItem),
    Item("ntrip2_host", StrItem),
    Item("ntrip2_port", U16Item),
    Item("ntrip2_mp", StrItem),
    Item("ntrip2_user", StrItem),
    Item("ntrip2_pass", SecretItem)
  ]

  const CASTER: seq<Item> := [
    Item("caster_active", BoolItem),
    Item("caster_port", U16Item),
    Item("caster_mp", StrItem),
    Item("caster_user", StrItem),
    Item("caster_pass", SecretItem)
  ]

  const TCP_SERVER: seq<Item> := [
    Item("tcp_srv_active", BoolItem),
    Item("tcp_srv_port", U16Item)
  ]

  const UART_PINS: seq<Item> := [
    Item("uart_num", U8Item),
    Item("uart_rx_pin", U8Item),
    Item("uart_tx_pin", U8Item),
    Item("uart_rts_pin", U8Item),
    Item("uart_cts_pin", U8Item)
  ]

  const UART_LINE: seq<Item> := [
    Item("uart_baud_rate", U32Item),
    Item("uart_data_bits", U8Item),
    Item("uart_stop_bits", U8Item)
  ]

  const UART_OPTIONS: seq<Item> := [
    Item("uart_parity", U8Item),
    Item("uart_fc_rts", BoolItem),
    Item("uart_fc_cts", BoolItem)
  ]

  const WIFI_AP: seq<Item> := [
    Item("w_ap_active", BoolItem),
    Item("w_ap_ssid", StrItem),
    Item("w_ap_ssid_hid", BoolItem),
    Item("w_ap_auth_mode", U8Item)
  ]

  const WIFI_AP_NET: seq<Item> := [
    Item("w_ap_pass", SecretItem),
    Item("w_ap_gw", IpItem),
    Item("w_ap_subnet", U8Item)
  ]

  const WIFI_STA: seq<Item> := [
    Item("w_sta_active", BoolItem),
    Item("w_sta_ssid", StrItem),
    Item("w_sta_pass", SecretItem)
  ]

  const WIFI_STA_MODE: seq<Item> := [
    Item("w_sta_scan_mode", BoolItem),
    Item("w_sta_static", BoolItem),
    Item("w_sta_ip", IpItem)
  ]

  const WIFI_STA_IP: seq<Item> := [
    Item("w_sta_gw", IpItem),
    Item("w_sta_subnet", U8Item)
  ]

  const WIFI_STA_DNS: seq<Item> := [
    Item("w_sta_dns_a", IpItem),
    Item("w_sta_dns_b", IpItem)
  ]

  const CONFIG_ITEMS: seq<Item> :=
    ADMIN + NTRIP1 + NTRIP2 + CASTER + TCP_SERVER + UART_PINS + UART_LINE + UART_OPTIONS +
    WIFI_AP + WIFI_AP_NET + WIFI_STA + WIFI_STA_MODE + WIFI_STA_IP + WIFI_STA_DNS

  // ---- The letters that tell the keys apart, whatever their case ----

  function At(key: string, i: nat): char {
    if i < |key| then Lower(key[i]) else ' '
  }

  /** active, host, port, mp, user, pass */
  function ServiceRow(key: string): nat {
    match At(key, 7)
    case 'a' => 0
    case 'h' => 1
    case 'm' => 3
    case 'u' => 4
    case _ => if At(key, 8) == 'o' then 2 else 5
  }

  /** num, rx_pin, tx_pin, rts_pin, cts_pin, baud_rate, data_bits, stop_bits, parity, fc_rts, fc_cts */
  function UartRow(key: string): nat {
    match At(key, 5)
    case 'n' => 0
    case 'r' => if At(key, 6) == 'x' then 1 else 3
    case 't' => 2
    case 'c' => 4
    case 'b' => 5
    case 'd' => 6
    case 's' => 7
    case 'p' => 8
    case _ => if At(key, 8) == 'r' then 9 else 10
  }

  /** active, ssid, ssid_hid, auth_mode, pass, gw, subnet */
  function ApRow(key: string): nat {
    match At(key, 5)
    case 'a' => if At(key, 6) == 'c' then 0 else 3
    case 's' => if At(key, 6) == 'u' then 6 else if At(key, 9) == '_' then 2 else 1
    case 'p' => 4
    case _ => 5
  }

  /** active, ssid, pass, scan_mode, static, ip, gw, subnet, dns_a, dns_b */
  function StaRow(key: string): nat {
    match At(key, 6)
    case 'a' => 0
    case 's' =>
      (match At(key, 7)
       case 's' => 1
       case 'c' => 3
       case 't' => 4
       case _ => 7)
    case 'p' => 2
    case 'i' => 5
    case 'g' => 6
    case _ => if At(key, 10) == 'a' then 8 else 9
  }

  /** The row of the table that a key can belong to. */
  function Row(key: string): nat {
    match At(key, 0)
    case 'a' => if At(key, 4) == 'a' then 0 else if At(key, 4) == 'u' then 1 else 2
    case 't' => if At(key, 1) == 'i' then 3 else if At(key, 8) == 'a' then 22 else 23
    case 'h' => 4
    case 'n' => (if At(key, 5) == '1' then 5 else 11) + ServiceRow(key)
    case 'c' => if At(key, 7) == 'a' then 17 else 16 + ServiceRow(key)
    case 'u' => 24 + UartRow(key)
    case _ => if At(key, 2) == 'a' then 35 + ApRow(key) else 42 + StaRow(key)
  }

  lemma SameNameSameRow(a: string, b: string)
    requires SameName(a, b)
    ensures Row(a) == Row(b)
  {
    assert forall i: nat :: At(a, i) == At(b, i);
    hide At;
  }

  ghost predicate Placed(table: seq<Item>, from: nat) {
    forall i :: 0 <= i < |table| ==> Row(table[i].key) == from + i
  }

  lemma PlacedConcat(a: seq<Item>, b: seq<Item>, from: nat)
    requires Placed(a, from) && Placed(b, from + |a|)
    ensures Placed(a + b, from)
  {
    hide Row;
  }

  lemma PlacedDistinct(table: seq<Item>, from: nat)
    requires Placed(table, from)
    ensures DistinctKeys(table) && NoSameNames(table)
  {
    hide Row, SameName;
    forall i, j | 0 <= i < j < |table|
      ensures table[i].key != table[j].key && !SameName(table[i].key, table[j].key)
    {
      assert Row(table[i].key) != Row(table[j].key);
      if SameName(table[i].key, table[j].key) {
        SameNameSameRow(table[i].key, table[j].key);
      }
    }
  }

  lemma AdminPlaced()
    ensures |ADMIN| == 5 && Placed(ADMIN, 0)
  {
    assert Row("adm_auth") == 0;
    assert Row("adm_user") == 1;
    assert Row("adm_pass") == 2;
    assert Row("time_tz") == 3;
    assert Row("host_name") == 4;
    hide Row;
  }

  lemma Ntrip1Placed()
    ensures |NTRIP1| == 6 && Placed(NTRIP1, 5)
  {
    assert Row("ntrip1_active") == 5;
    assert Row("ntrip1_host") == 6;
    assert Row("ntrip1_port") == 7;
    assert Row("ntrip1_mp") == 8;
    assert Row("ntrip1_user") == 9;
    assert Row("ntrip1_pass") == 10;
    hide Row;
  }

  lemma Ntrip2Placed()
    ensures |NTRIP2| == 6 && Placed(NTRIP2, 11)
  {
    assert Row("ntrip2_active") == 11;
    assert Row("ntrip2_host") == 12;
    assert Row("ntrip2_port") == 13;
    assert Row("ntrip2_mp") == 14;
    assert Row("ntrip2_user") == 15;
    assert Row("ntrip2_pass") == 16;
    hide Row;
  }

  lemma CasterPlaced()
    ensures |CASTER| == 5 && Placed(CASTER, 17)
  {
    assert Row("caster_active") == 17;
    assert Row("caster_port") == 18;
    assert Row("caster_mp") == 19;
    assert Row("caster_user") == 20;
    assert Row("caster_pass") == 21;
    hide Row;
  }

  lemma TcpServerPlaced()
    ensures |TCP_SERVER| == 2 && Placed(TCP_SERVER, 22)
  {
    assert Row("tcp_srv_active") == 22;
    assert Row("tcp_srv_port") == 23;
    hide Row;
  }

  lemma UartPinsPlaced()
    ensures |UART_PINS| == 5 && Placed(UART_PINS, 24)
  {
    assert Row("uart_num") == 24;
    assert Row("uart_rx_pin") == 25;
    assert Row("uart_tx_pin") == 26;
    assert Row("uart_rts_pin") == 27;
    assert Row("uart_cts_pin") == 28;
    hide Row;
  }

  lemma UartLinePlaced()
    ensures |UART_LINE| == 3 && Placed(UART_LINE, 29)
  {
    assert Row("uart_baud_rate") == 29;
    assert Row("uart_data_bits") == 30;
    assert Row("uart_stop_bits") == 31;
    hide Row;
  }

  lemma UartOptionsPlaced()
    ensures |UART_OPTIONS| == 3 && Placed(UART_OPTIONS, 32)
  {
    assert Row("uart_parity") == 32;
    assert Row("uart_fc_rts") == 33;
    assert Row("uart_fc_cts") == 34;
    hide Row;
  }

  lemma WifiApPlaced()
    ensures |WIFI_AP| == 4 && Placed(WIFI_AP, 35)
  {
    assert Row("w_ap_active") == 35;
    assert Row("w_ap_ssid") == 36;
    assert Row("w_ap_ssid_hid") == 37;
    assert Row("w_ap_auth_mode") == 38;
    hide Row;
  }

  lemma WifiApNetPlaced()
    ensures |WIFI_AP_NET| == 3 && Placed(WIFI_AP_NET, 39)
  {
    assert Row("w_ap_pass") == 39;
    assert Row("w_ap_gw") == 40;
    assert Row("w_ap_subnet") == 41;
    hide Row;
  }

  lemma WifiStaPlaced()
    ensures |WIFI_STA| == 3 && Placed(WIFI_STA, 42)
  {
    assert Row("w_sta_active") == 42;
    assert Row("w_sta_ssid") == 43;
    assert Row("w_sta_pass") == 44;
    hide Row;
  }

  lemma WifiStaModePlaced()
    ensures |WIFI_STA_MODE| == 3 && Placed(WIFI_STA_MODE, 45)
  {
    assert Row("w_sta_scan_mode") == 45;
    assert Row("w_sta_static") == 46;
    assert Row("w_sta_ip") == 47;
    hide Row;
  }

  lemma WifiStaIpPlaced()
    ensures |WIFI_STA_IP| == 2 && Placed(WIFI_STA_IP, 48)
  {
    assert Row("w_sta_gw") == 48;
    assert Row("w_sta_subnet") == 49;
    hide Row;
  }

  lemma WifiStaDnsPlaced()
    ensures |WIFI_STA_DNS| == 2 && Placed(WIFI_STA_DNS, 50)
  {
    assert Row("w_sta_dns_a") == 50;
    assert Row("w_sta_dns_b") == 51;
    hide Row;
  }

  lemma TablePlaced()
    ensures Placed(CONFIG_ITEMS, 0)
  {
    hide Placed;
    AdminPlaced();
    Ntrip1Placed();
    Ntrip2Placed();
    CasterPlaced();
    TcpServerPlaced();
    UartPinsPlaced();
    UartLinePlaced();
    UartOptionsPlaced();
    WifiApPlaced();
    WifiApNetPlaced();
    WifiStaPlaced();
    WifiStaModePlaced();
    WifiStaIpPlaced();
    WifiStaDnsPlaced();
    PlacedConcat(ADMIN, NTRIP1, 0);
    var t1 := ADMIN + NTRIP1;
    PlacedConcat(t1, NTRIP2, 0);
    var t2 := t1 + NTRIP2;
    PlacedConcat(t2, CASTER, 0);
    var t3 := t2 + CASTER;
    PlacedConcat(t3, TCP_SERVER, 0);
    var t4 := t3 + TCP_SERVER;
    PlacedConcat(t4, UART_PINS, 0);
    var t5 := t4 + UART_PINS;
    PlacedConcat(t5, UART_LINE, 0);
    var t6 := t5 + UART_LINE;
    PlacedConcat(t6, UART_OPTIONS, 0);
    var t7 := t6 + UART_OPTIONS;
    PlacedConcat(t7, WIFI_AP, 0);
    var t8 := t7 + WIFI_AP;
    PlacedConcat(t8, WIFI_AP_NET, 0);
    var t9 := t8 + WIFI_AP_NET;
    PlacedConcat(t9, WIFI_STA, 0);
    var t10 := t9 + WIFI_STA;
    PlacedConcat(t10, WIFI_STA_MODE, 0);
    var t11 := t10 + WIFI_STA_MODE;
    PlacedConcat(t11, WIFI_STA_IP, 0);
    var t12 := t11 + WIFI_STA_IP;
    PlacedConcat(t12, WIFI_STA_DNS, 0);
  }

  lemma TableLength()
    ensures |CONFIG_ITEMS| == 52
  {}

  /** The device's keys are distinct and never equal but for case. */
  lemma DeviceKeys()
    ensures |CONFIG_ITEMS| == 52 && DistinctKeys(CONFIG_ITEMS) && NoSameNames(CONFIG_ITEMS)
  {
    TableLength();
    hide *;
    TablePlaced();
    PlacedDistinct(CONFIG_ITEMS, 0);
  }

  /** On the device, posting the printed configuration back keeps every well-typed store. */
  lemma DeviceRoundTrip(flash: Flash, entries: Entries)
    requires StoreOk(CONFIG_ITEMS, entries) && flash.broken == {} && flash.commitOk
    ensures FromJson(flash, ToJson(CONFIG_ITEMS, entries), CONFIG_ITEMS, entries) == Outcome(entries, false)
  {
    assert Survives(flash, CONFIG_ITEMS, entries) by {
      hide *;
      DeviceKeys();
      SafeNames(CONFIG_ITEMS);
      PrintedRoundTrip(flash, CONFIG_ITEMS, entries);
    }
    hide StoreOk, FromJson, ToJson;
  }
}
