/** The table-driven configuration: the store printed as a JSON tree, and a posted tree read
    back into the store. */
module Config {
  import opened Crc24
  import opened Sequences
  import opened JsonCompat

  datatype Kind = BoolItem | U8Item | U16Item | U32Item | StrItem | SecretItem | IpItem

  datatype Item = Item(key: string, kind: Kind)

  /** An entry of the key-value store, which keeps the width it was written with. */
  datatype Value = Byte(n: nat) | Half(n: nat) | Word(n: nat) | Text(s: string)

  /** Eight substitute characters stand for a secret that stays as it is. */
  const CFG_VALUE_UNCHANGED: string := "\U{1A}\U{1A}\U{1A}\U{1A}\U{1A}\U{1A}\U{1A}\U{1A}"

  type Entries = map<string, Value>

  predicate WellTyped(kind: Kind, v: Value) {
    match kind
    case BoolItem => v.Byte? && v.n <= 1
    case U8Item => v.Byte? && v.n < 256
    case U16Item => v.Half? && v.n < 65536
    case U32Item => v.Word? && v.n < UINT32
    case IpItem => v.Word? && v.n < UINT32
    case StrItem => v.Text?
    case SecretItem => v.Text?
  }

  ghost predicate StoreOk(table: seq<Item>, entries: Entries) {
    forall i :: 0 <= i < |table| ==> table[i].key in entries && WellTyped(table[i].kind, entries[table[i].key])
  }

  // ---- Printing ----

  /** What cfg_to_json adds for one item. */
  function Print(kind: Kind, v: Value): Json
    requires WellTyped(kind, v)
  {
    match kind
    case SecretItem => Str(CFG_VALUE_UNCHANGED)
    case StrItem => Str(v.s)
    case IpItem => Arr([Num(Octet(v.n, 0) as real), Num(Octet(v.n, 1) as real),
                          Num(Octet(v.n, 2) as real), Num(Octet(v.n, 3) as real)])
    case BoolItem => Bool(v.n != 0)
    case _ => Num(v.n as real)
  }

  function ToJson(table: seq<Item>, entries: Entries): (root: seq<Field>)
    requires StoreOk(table, entries)
    ensures |root| == |table|
  {
    seq(|table|, i requires 0 <= i < |table| => Field(table[i].key, Print(table[i].kind, entries[table[i].key])))
  }

  // ---- Reading ----

  datatype Reading = Bad | Keep | Set(v: Value)

  function Read(kind: Kind, j: Json): Reading {
    match kind
    case StrItem => if j.Str? then Set(Text(j.s)) else Bad
    case SecretItem => if !j.Str? then Bad else if j.s == CFG_VALUE_UNCHANGED then Keep else Set(Text(j.s))
    case BoolItem => (match GetBool(j) case None => Bad case Some(n) => Set(Byte(n)))
    case U8Item => (match GetU32(j, 255) case None => Bad case Some(n) => Set(Byte(n)))
    case U16Item => (match GetU32(j, 65535) case None => Bad case Some(n) => Set(Half(n)))
    case U32Item => (match GetU32(j, UINT32 - 1) case None => Bad case Some(n) => Set(Word(n)))
    case IpItem => (match GetIp4(j) case None => Bad case Some(n) => Set(Word(n)))
  }

  /** cJSON_GetObjectItem: the first field whose name is the key but for case. */
  function Lookup(root: seq<Field>, key: string): Option<Json> {
    if root == [] then None
    else if SameName(root[0].key, key) then Some(root[0].value)
    else Lookup(root[1..], key)
  }

  /** Writes to the keys in `broken` fail, and the commit may; all else succeeds. */
  datatype Flash = Flash(broken: set<string>, commitOk: bool)

  datatype Outcome = Outcome(entries: Entries, failed: bool)

  function StoreItem(flash: Flash, root: seq<Field>, item: Item, o: Outcome): Outcome {
    match Lookup(root, item.key)
    case None => o
    case Some(j) =>
      match Read(item.kind, j)
      case Bad => o.(failed := true)
      case Keep => o
      case Set(v) =>
        if item.key in flash.broken then o.(failed := true)
        else o.(entries := o.entries[item.key := v])
  }

  function StoreItems(flash: Flash, root: seq<Field>, table: seq<Item>, entries: Entries): Outcome {
    if table == [] then Outcome(entries, false)
    else
      StoreItem(flash, root, table[|table| - 1], StoreItems(flash, root, table[..|table| - 1], entries))
  }

  /** The whole call: an error is reported if any item failed or the commit did. */
  function FromJson(flash: Flash, root: seq<Field>, table: seq<Item>, entries: Entries): Outcome {
    var o := StoreItems(flash, root, table, entries);
    if !o.failed && !flash.commitOk then o.(failed := true) else o
  }

  // ---- The code ----

  class Store {
    var entries: Entries
    const flash: Flash

    constructor (entries: Entries, flash: Flash)
      ensures this.entries == entries && this.flash == flash
    {
      this.entries, this.flash := entries, flash;
    }

    /** nvs_set_* */
    method Write(key: string, v: Value) returns (ok: bool)
      modifies this
      ensures ok == (key !in flash.broken) && entries == if ok then old(entries)[key := v] else old(entries)
    {
      ok := key !in flash.broken;
      if ok {
        entries := entries[key := v];
      }
    }

    /** cfg_to_json */
    method CfgToJson(table: seq<Item>) returns (root: seq<Field>)
      requires StoreOk(table, entries)
      ensures root == ToJson(table, entries)
    {
      root := [];
      for i := 0 to |table|
        invariant root == ToJson(table[..i], entries)
      {
        var item := table[i];
        var v := entries[item.key];
        var j: Json;
        match item.kind {
          case SecretItem => j := Str(CFG_VALUE_UNCHANGED);
          case StrItem => j := Str(v.s);
          case IpItem =>
            var parts: seq<Json> := [];
            for b := 0 to 4
              invariant |parts| == b && forall k :: 0 <= k < b ==> parts[k] == Num(Octet(v.n, k) as real)
            {
              parts := parts + [Num(Octet(v.n, b) as real)];
            }
            j := Arr(parts);
          case BoolItem => j := Bool(v.n != 0);
          case U8Item => j := Num(v.n as real);
          case U16Item => j := Num(v.n as real);
          case U32Item => j := Num(v.n as real);
        }
        assert j == Print(item.kind, v);
        root := root + [Field(item.key, j)];
      }
    }

    /** cfg_json_to_nvs */
    method CfgJsonToNvs(table: seq<Item>, root: seq<Field>) returns (ok: bool)
      modifies this
      ensures var o := FromJson(flash, root, table, old(entries)); entries == o.entries && ok == !o.failed
    {
      var hadError := false;
      for i := 0 to |table|
        invariant Outcome(entries, hadError) == StoreItems(flash, root, table[..i], old(entries))
      {
        var item := table[i];
        assert table[..i + 1][..i] == table[..i] && table[..i + 1][i] == item;
        var found := Lookup(root, item.key);
        if found.None? {
          continue;
        }
        var reading := Read(item.kind, found.value);
        if reading.Bad? {
          hadError := true;
          continue;
        }
        if reading.Keep? {
          continue;
        }
        var written := Write(item.key, reading.v);
        if !written {
          hadError := true;
        }
      }
      assert table[..|table|] == table;
      if !hadError && !flash.commitOk {
        hadError := true;
      }
      ok := !hadError;
    }
  }

  // ---- Every item on its own ----

  function Get(entries: Entries, key: string): Option<Value> {
    if key in entries then Some(entries[key]) else None
  }

  /** What the item does to a store by itself. */
  function Alone(flash: Flash, root: seq<Field>, item: Item, entries: Entries): Outcome {
    StoreItem(flash, root, item, Outcome(entries, false))
  }

  ghost predicate DistinctKeys(table: seq<Item>) {
    forall i, j :: 0 <= i < j < |table| ==> table[i].key != table[j].key
  }

  lemma ItemTouchesItsKey(flash: Flash, root: seq<Field>, item: Item, o: Outcome, key: string)
    ensures key != item.key ==> Get(StoreItem(flash, root, item, o).entries, key) == Get(o.entries, key)
    ensures StoreItem(flash, root, item, o).failed <==> o.failed || Alone(flash, root, item, o.entries).failed
  {
    hide Lookup, Read;
  }

  /** An item's effect depends on the store at its key only. */
  lemma ItemEffect(flash: Flash, root: seq<Field>, item: Item, o: Outcome, entries: Entries)
    requires Get(o.entries, item.key) == Get(entries, item.key)
    ensures Get(StoreItem(flash, root, item, o).entries, item.key)
         == Get(Alone(flash, root, item, entries).entries, item.key)
    ensures Alone(flash, root, item, o.entries).failed <==> Alone(flash, root, item, entries).failed
  {
    hide Lookup, Read;
  }

  /** With distinct keys the loop treats every item as if it were alone: a bad one neither
      stops nor changes the others, nothing outside the table is touched, and an error is
      reported exactly when some item has one. */
  lemma {:induction false} EachItemAlone(flash: Flash, root: seq<Field>, table: seq<Item>, entries: Entries)
    requires DistinctKeys(table)
    ensures var o := StoreItems(flash, root, table, entries);
            && (forall i :: 0 <= i < |table| ==>
                  Get(o.entries, table[i].key) == Get(Alone(flash, root, table[i], entries).entries, table[i].key))
            && (forall key :: (forall i :: 0 <= i < |table| ==> table[i].key != key) ==>
                  Get(o.entries, key) == Get(entries, key))
            && (o.failed <==> exists i :: 0 <= i < |table| && Alone(flash, root, table[i], entries).failed)
  {
    if table != [] {
      var n := |table| - 1;
      var front, item := table[..n], table[n];
      EachItemAlone(flash, root, front, entries);
      var o := StoreItems(flash, root, front, entries);
      hide StoreItem, Get;
      forall key
        ensures key != item.key ==> Get(StoreItem(flash, root, item, o).entries, key) == Get(o.entries, key)
      {
        ItemTouchesItsKey(flash, root, item, o, key);
      }
      ItemTouchesItsKey(flash, root, item, o, item.key);
      assert forall i :: 0 <= i < |front| ==> front[i].key != item.key;
      ItemEffect(flash, root, item, o, entries);
      assert forall i :: 0 <= i < |table| ==> table[i] == if i < n then front[i] else item;
    }
  }

  // ---- Round trip ----

  /** Two keys equal but for case belong to secrets. */
  ghost predicate KeysSafe(table: seq<Item>) {
    forall i, j :: 0 <= i < j < |table| && SameName(table[i].key, table[j].key) ==>
      table[i].kind == SecretItem && table[j].kind == SecretItem
  }

  /** No two keys are equal but for case. */
  ghost predicate NoSameNames(table: seq<Item>) {
    forall i, j :: 0 <= i < j < |table| ==> !SameName(table[i].key, table[j].key)
  }

  lemma SafeNames(table: seq<Item>)
    requires NoSameNames(table)
    ensures KeysSafe(table)
  {
    hide SameName;
  }

  predicate IsTextOf(j': Json, j: Json) {
    j.Num? && j.x >= 0.0 && j.x == j.x.Floor as real && j' == Str(Decimal(j.x.Floor))
  }

  predicate IsBoolOf(j': Json, b: bool) {
    || j' == Num(if b then 1.0 else 0.0)
    || (j'.Str? && (j'.s == (if b then "1" else "0") || SameName(j'.s, if b then "true" else "false")))
  }

  /** The same value, perhaps as text: a number by its decimal digits, a boolean by a digit
      or a word in any case, an array element by element. */
  ghost predicate Restates(j': Json, j: Json) {
    || j' == j
    || IsTextOf(j', j)
    || (j.Bool? && IsBoolOf(j', j.b))
    || (j.Arr? && j'.Arr? && |j'.items| == |j.items|
        && forall i :: 0 <= i < |j.items| ==> j'.items[i] == j.items[i] || IsTextOf(j'.items[i], j.items[i]))
  }

  lemma RestatedNumber(n: nat, max: nat, j': Json)
    requires n <= max < UINT32 && (j' == Num(n as real) || IsTextOf(j', Num(n as real)))
    ensures GetU32(j', max) == Some(n)
  {
    DecimalReads(n, max);
    assert (n as real).Floor == n;
    hide Strtoul, Decimal;
  }

  lemma RestatedBool(b: bool, j': Json)
    requires j' == Bool(b) || IsBoolOf(j', b)
    ensures GetBool(j') == Some(if b then 1 else 0)
  {
    if j'.Str? {
      assert !SameName(j'.s, "true") || !SameName(j'.s, "false") by {
        assert |"true"| != |"false"|;
      }
      assert |"0"| == |"1"| == 1 && "0"[0] != "1"[0];
    }
  }

  lemma RestatedIp(n: nat, j: Json, j': Json)
    requires n < UINT32 && Restates(j', j)
    requires j == Arr([Num(Octet(n, 0) as real), Num(Octet(n, 1) as real),
                       Num(Octet(n, 2) as real), Num(Octet(n, 3) as real)])
    ensures GetIp4(j') == Some(n)
  {
    assert j'.Arr? && |j'.items| == 4;
    forall b | 0 <= b < 4
      ensures GetU32(j'.items[b], 255) == Some(Octet(n, b))
    {
      assert j.items[b] == Num(Octet(n, b) as real);
      RestatedNumber(Octet(n, b), 255, j'.items[b]);
    }
    hide Octet, GetU32;
    Ip4Octets(j', [Octet(n, 0), Octet(n, 1), Octet(n, 2), Octet(n, 3)]);
    OctetsRoundTrip(n);
  }

  /** Reading what was printed, or the same as text, gives the value back. */
  lemma ReadPrinted(kind: Kind, v: Value, j': Json)
    requires WellTyped(kind, v) && Restates(j', Print(kind, v))
    ensures Read(kind, j') == if kind == SecretItem then Keep else Set(v)
  {
    hide GetU32, GetBool, GetIp4, Octet, Decimal;
    match kind
    case StrItem =>
    case SecretItem =>
    case BoolItem => RestatedBool(v.n != 0, j');
    case U8Item => RestatedNumber(v.n, 255, j');
    case U16Item => RestatedNumber(v.n, 65535, j');
    case U32Item => RestatedNumber(v.n, UINT32 - 1, j');
    case IpItem => RestatedIp(v.n, Print(kind, v), j');
  }

  lemma {:induction false} LookupAt(root: seq<Field>, key: string, i: nat)
    requires i < |root| && SameName(root[i].key, key)
    requires forall j :: 0 <= j < i ==> !SameName(root[j].key, key)
    ensures Lookup(root, key) == Some(root[i].value)
  {
    if i > 0 {
      LookupAt(root[1..], key, i - 1);
    }
  }

  ghost predicate RestatesAll(root: seq<Field>, table: seq<Item>, entries: Entries)
    requires StoreOk(table, entries)
  {
    && |root| == |table|
    && forall i :: 0 <= i < |table| ==>
         root[i].key == table[i].key && Restates(root[i].value, Print(table[i].kind, entries[table[i].key]))
  }

  /** The item whose field the lookup of item j's key finds in a printed tree. */
  lemma FirstOfName(table: seq<Item>, j: nat) returns (f: nat)
    requires j < |table|
    ensures f <= j && SameName(table[f].key, table[j].key)
    ensures forall i :: 0 <= i < f ==> !SameName(table[i].key, table[j].key)
  {
    f := 0;
    while !SameName(table[f].key, table[j].key)
      invariant f <= j && forall i :: 0 <= i < f ==> !SameName(table[i].key, table[j].key)
      decreases j - f
    {
      f := f + 1;
    }
  }

  lemma ItemRoundTrip(flash: Flash, table: seq<Item>, entries: Entries, root: seq<Field>, i: nat)
    requires StoreOk(table, entries) && KeysSafe(table) && RestatesAll(root, table, entries) && i < |table|
    requires flash.broken == {}
    ensures StoreItem(flash, root, table[i], Outcome(entries, false)) == Outcome(entries, false)
  {
    var key := table[i].key;
    var f := FirstOfName(table, i);
    assert forall j :: 0 <= j < f ==> !SameName(root[j].key, key);
    LookupAt(root, key, f);
    ReadPrinted(table[f].kind, entries[table[f].key], root[f].value);
    assert f == i || (table[f].kind == SecretItem && table[i].kind == SecretItem);
    assert entries[key := entries[key]] == entries;
    hide Lookup, Read, Print, Restates, SameName;
  }

  lemma {:induction false} ItemsRoundTrip(flash: Flash, table: seq<Item>, entries: Entries, root: seq<Field>, n: nat)
    requires StoreOk(table, entries) && KeysSafe(table) && RestatesAll(root, table, entries) && n <= |table|
    requires flash.broken == {}
    ensures StoreItems(flash, root, table[..n], entries) == Outcome(entries, false)
  {
    if n > 0 {
      ItemsRoundTrip(flash, table, entries, root, n - 1);
      ItemRoundTrip(flash, table, entries, root, n - 1);
      assert table[..n][..n - 1] == table[..n - 1] && table[..n][n - 1] == table[n - 1];
      hide StoreItem, RestatesAll, KeysSafe, StoreOk;
    }
  }

  /** Posting the printed configuration back, its numbers, booleans and octets perhaps as
      text, succeeds and changes nothing: every item keeps its value, secrets included. */
  lemma RoundTrip(flash: Flash, table: seq<Item>, entries: Entries, root: seq<Field>)
    requires StoreOk(table, entries) && KeysSafe(table) && RestatesAll(root, table, entries)
    requires flash.broken == {} && flash.commitOk
    ensures FromJson(flash, root, table, entries) == Outcome(entries, false)
  {
    ItemsRoundTrip(flash, table, entries, root, |table|);
    assert table[..|table|] == table;
    hide StoreItems;
  }

  lemma PrintedRestates(table: seq<Item>, entries: Entries)
    requires StoreOk(table, entries)
    ensures RestatesAll(ToJson(table, entries), table, entries)
  {
    hide Print;
  }

  ghost predicate Survives(flash: Flash, table: seq<Item>, entries: Entries)
    requires StoreOk(table, entries)
  {
    FromJson(flash, ToJson(table, entries), table, entries) == Outcome(entries, false)
  }

  /** The printed tree itself, posted back. */
  lemma PrintedRoundTrip(flash: Flash, table: seq<Item>, entries: Entries)
    requires StoreOk(table, entries) && KeysSafe(table) && flash.broken == {} && flash.commitOk
    ensures Survives(flash, table, entries)
  {
    PrintedRestates(table, entries);
    hide RestatesAll, FromJson, ToJson;
    RoundTrip(flash, table, entries, ToJson(table, entries));
  }

  // ---- When the round trip holds, exactly ----

  /** Two values of each kind. */
  function Plain(kind: Kind): (v: Value)
    ensures WellTyped(kind, v)
  {
    match kind
    case U16Item => Half(0)
    case U32Item => Word(0)
    case IpItem => Word(0)
    case StrItem => Text("")
    case SecretItem => Text("")
    case _ => Byte(0)
  }

  function Other(kind: Kind): (v: Value)
    ensures WellTyped(kind, v) && v != Plain(kind)
  {
    match kind
    case U16Item => Half(1)
    case U32Item => Word(1)
    case IpItem => Word(1)
    case StrItem => Text("x")
    case SecretItem => Text("x")
    case _ => Byte(1)
  }

  function PlainStore(table: seq<Item>): Entries {
    if table == [] then map[]
    else PlainStore(table[..|table| - 1])[table[|table| - 1].key := Plain(table[|table| - 1].kind)]
  }

  lemma {:induction false} PlainStoreHas(table: seq<Item>)
    requires DistinctKeys(table)
    ensures forall i :: 0 <= i < |table| ==> Get(PlainStore(table), table[i].key) == Some(Plain(table[i].kind))
  {
    if table != [] {
      var front := table[..|table| - 1];
      PlainStoreHas(front);
      assert forall i :: 0 <= i < |front| ==> front[i] == table[i] && table[i].key != table[|table| - 1].key;
      hide Plain;
    }
  }

  lemma PlainIsRead(first: Kind, second: Kind)
    requires !(first == SecretItem && second == SecretItem)
    ensures Read(second, Print(first, Plain(first))) != Keep
  {
    assert |CFG_VALUE_UNCHANGED| == 8;
    hide GetU32, GetBool, GetIp4, Octet;
  }

  /** Item j reads the field of an earlier item f, and some store tells them apart. */
  lemma FieldOfAnother(flash: Flash, table: seq<Item>, f: nat, j: nat) returns (entries: Entries)
    requires DistinctKeys(table) && f < j < |table| && SameName(table[f].key, table[j].key)
    requires forall i :: 0 <= i < f ==> !SameName(table[i].key, table[j].key)
    requires !(table[f].kind == SecretItem && table[j].kind == SecretItem)
    ensures StoreOk(table, entries) && !Survives(flash, table, entries)
  {
    var first, item := table[f], table[j];
    PlainStoreHas(table);
    PlainIsRead(first.kind, item.kind);
    var r := Read(item.kind, Print(first.kind, Plain(first.kind)));
    var v := if r == Set(Plain(item.kind)) then Other(item.kind) else Plain(item.kind);
    entries := PlainStore(table)[item.key := v];
    assert StoreOk(table, entries) && first.key != item.key && entries[first.key] == Plain(first.kind);
    FieldFound(table, entries, f, j);
    hide *;
    ClashShows(flash, table, entries, j, Print(first.kind, Plain(first.kind)), r);
  }

  lemma FieldFound(table: seq<Item>, entries: Entries, f: nat, j: nat)
    requires StoreOk(table, entries) && f < j < |table| && SameName(table[f].key, table[j].key)
    requires forall i :: 0 <= i < f ==> !SameName(table[i].key, table[j].key)
    ensures Lookup(ToJson(table, entries), table[j].key) == Some(Print(table[f].kind, entries[table[f].key]))
  {
    var root := ToJson(table, entries);
    assert forall i :: 0 <= i < f ==> !SameName(root[i].key, table[j].key);
    hide Print, SameName;
    LookupAt(root, table[j].key, f);
  }

  lemma ClashShows(flash: Flash, table: seq<Item>, entries: Entries, j: nat, field: Json, r: Reading)
    requires DistinctKeys(table) && StoreOk(table, entries) && j < |table|
    requires Lookup(ToJson(table, entries), table[j].key) == Some(field) && r == Read(table[j].kind, field)
    requires r != Keep && r != Set(entries[table[j].key])
    ensures !Survives(flash, table, entries)
  {
    var root, item := ToJson(table, entries), table[j];
    var o := Alone(flash, root, item, entries);
    assert o.failed || Get(o.entries, item.key) != Get(entries, item.key) by { hide Lookup, Read, ToJson; }
    hide StoreItem, Get, ToJson, Lookup, Read, StoreOk;
    EachItemAlone(flash, root, table, entries);
  }

  /** The first two keys that clash and are not both secrets. */
  lemma UnsafePair(table: seq<Item>) returns (f: nat, j: nat)
    requires !KeysSafe(table)
    ensures f < j < |table| && SameName(table[f].key, table[j].key)
    ensures forall i :: 0 <= i < f ==> !SameName(table[i].key, table[j].key)
    ensures !(table[f].kind == SecretItem && table[j].kind == SecretItem)
  {
    var a: nat, b: nat :| a < b < |table| && SameName(table[a].key, table[b].key)
                          && !(table[a].kind == SecretItem && table[b].kind == SecretItem);
    f := FirstOfName(table, b);
    j := b;
    if table[f].kind == SecretItem && table[b].kind == SecretItem {
      // then a is no secret, and f is the first of its name too
      j := a;
      assert forall i :: 0 <= i < f && SameName(table[i].key, table[a].key) ==> SameName(table[i].key, table[b].key);
    }
  }

  /** For distinct keys and a working flash: posting the printed configuration back leaves
      every well-typed store as it was if and only if any two keys that are equal but for
      case both belong to secrets. */
  lemma RoundTripExactly(flash: Flash, table: seq<Item>)
    requires DistinctKeys(table) && flash.broken == {} && flash.commitOk
    ensures KeysSafe(table) <==> forall entries :: StoreOk(table, entries) ==> Survives(flash, table, entries)
  {
    if KeysSafe(table) {
      forall entries | StoreOk(table, entries)
        ensures Survives(flash, table, entries)
      {
        PrintedRoundTrip(flash, table, entries);
      }
    } else {
      var f, j := UnsafePair(table);
      var entries := FieldOfAnother(flash, table, f, j);
    }
    hide KeysSafe, Survives, StoreOk, DistinctKeys;
  }

  /** An example: the second item reads the first's field. */
  lemma CaseClash(flash: Flash)
    requires flash == Flash({}, true)
    ensures var table := [Item("a", U8Item), Item("A", U8Item)];
            var entries: Entries := map["a" := Byte(1), "A" := Byte(2)];
            StoreOk(table, entries) && DistinctKeys(table)
            && FromJson(flash, ToJson(table, entries), table, entries)
               == Outcome(map["a" := Byte(1), "A" := Byte(1)], false)
  {
    var table := [Item("a", U8Item), Item("A", U8Item)];
    var entries: Entries := map["a" := Byte(1), "A" := Byte(2)];
    var root := ToJson(table, entries);
    assert "a"[0] != "A"[0];
    assert SameName(root[0].key, "A");
    LookupAt(root, "a", 0);
    LookupAt(root, "A", 0);
    assert table[..2] == table && table[..1] == [table[0]] && table[..0] == [];
    assert StoreItems(flash, root, [], entries) == Outcome(entries, false);
    assert [table[0]][..0] == [];
    assert StoreItems(flash, root, [table[0]], entries) == Outcome(entries, false);
    hide Lookup, SameName;
  }
}
