/** What a posted tree does to the store, in terms of the JSON values alone: which fields an
    item finds, which values they mean, and which are errors. */
module ConfigPost {
  import opened Crc24
  import opened Sequences
  import opened JsonCompat
  import opened JsonForms
  import opened Config

  /** A posted value that means v for an item of this kind. */
  ghost predicate Means(kind: Kind, j: Json, v: Value) {
    match kind
    case StrItem => v.Text? && j == Str(v.s)
    case SecretItem => v.Text? && j == Str(v.s) && v.s != CFG_VALUE_UNCHANGED
    case BoolItem => v.Byte? && IsSwitch(j, v.n)
    case U8Item => v.Byte? && IsNumber(j, v.n, 255)
    case U16Item => v.Half? && IsNumber(j, v.n, 65535)
    case U32Item => v.Word? && IsNumber(j, v.n, UINT32 - 1)
    case IpItem => v.Word? && IsAddress(j, v.n)
  }

  /** A secret that stays as it is. */
  predicate MeansKeep(kind: Kind, j: Json) {
    kind == SecretItem && j == Str(CFG_VALUE_UNCHANGED)
  }

  ghost predicate Meaningless(kind: Kind, j: Json) {
    !MeansKeep(kind, j) && forall v :: !Means(kind, j, v)
  }

  /** The reading of an item is exactly what the value means. */
  lemma ReadMeans(kind: Kind, j: Json, v: Value)
    ensures Read(kind, j) == Set(v) <==> Means(kind, j, v)
    ensures Read(kind, j) == Keep <==> MeansKeep(kind, j)
  {
    hide GetU32, GetBool, GetIp4, IsNumber, IsSwitch, IsAddress;
    if v.Text? { return; }
    match kind
    case BoolItem => SwitchesExactly(j, v.n);
    case U8Item => NumbersExactly(j, 255, v.n);
    case U16Item => NumbersExactly(j, 65535, v.n);
    case U32Item => NumbersExactly(j, UINT32 - 1, v.n);
    case IpItem => AddressesExactly(j, v.n);
    case _ =>
  }

  lemma BadIsMeaningless(kind: Kind, j: Json)
    ensures Read(kind, j) == Bad <==> Meaningless(kind, j)
  {
    hide Read, Means, MeansKeep;
    forall v
      ensures Read(kind, j) == Set(v) <==> Means(kind, j, v)
    {
      ReadMeans(kind, j, v);
    }
    ReadMeans(kind, j, Text(""));
    if Read(kind, j).Set? {
      assert Means(kind, j, Read(kind, j).v);
    }
  }

  // ---- Finding the field ----

  /** The first field of this name, whatever the case, holds j. */
  ghost predicate FoundAt(root: seq<Field>, key: string, j: Json, i: nat) {
    && i < |root| && SameName(root[i].key, key) && root[i].value == j
    && forall k :: 0 <= k < i ==> !SameName(root[k].key, key)
  }

  ghost predicate Found(root: seq<Field>, key: string, j: Json) {
    exists i: nat :: FoundAt(root, key, j, i)
  }

  ghost predicate Absent(root: seq<Field>, key: string) {
    forall i :: 0 <= i < |root| ==> !SameName(root[i].key, key)
  }

  lemma {:induction false} LookupFinds(root: seq<Field>, key: string)
    ensures Lookup(root, key) == None <==> Absent(root, key)
    ensures Lookup(root, key).Some? ==> Found(root, key, Lookup(root, key).value)
  {
    hide SameName;
    if root != [] {
      if SameName(root[0].key, key) {
        assert FoundAt(root, key, root[0].value, 0);
      } else {
        LookupFinds(root[1..], key);
        assert Absent(root, key) <==> Absent(root[1..], key) by { FirstAbsent(root, key); }
        if Lookup(root, key).Some? {
          var j := Lookup(root, key).value;
          var i: nat :| FoundAt(root[1..], key, j, i);
          assert FoundAt(root, key, j, i + 1);
        }
      }
    }
  }

  lemma FirstAbsent(root: seq<Field>, key: string)
    requires root != [] && !SameName(root[0].key, key)
    ensures Absent(root, key) <==> Absent(root[1..], key)
  {
    hide SameName;
    assert forall i :: 0 < i < |root| ==> root[i] == root[1..][i - 1];
  }

  lemma FoundIs(root: seq<Field>, key: string, j: Json)
    requires Found(root, key, j)
    ensures Lookup(root, key) == Some(j)
  {
    var i: nat :| FoundAt(root, key, j, i);
    LookupAt(root, key, i);
    hide SameName, Lookup;
  }

  lemma LookupExactly(root: seq<Field>, key: string, j: Json)
    ensures Lookup(root, key) == Some(j) <==> Found(root, key, j)
    ensures Lookup(root, key) == None <==> Absent(root, key)
  {
    hide Lookup, Found, Absent;
    LookupFinds(root, key);
    if Found(root, key, j) { FoundIs(root, key, j); }
  }

  // ---- The whole call ----

  /** The item has a field that means v. */
  ghost predicate Sets(root: seq<Field>, item: Item, v: Value) {
    exists j :: Found(root, item.key, j) && Means(item.kind, j, v)
  }

  ghost predicate Unreadable(root: seq<Field>, item: Item) {
    exists j :: Found(root, item.key, j) && Meaningless(item.kind, j)
  }

  /** Its field means nothing, or its key cannot be written. */
  ghost predicate Fails(flash: Flash, root: seq<Field>, item: Item) {
    Unreadable(root, item) || (item.key in flash.broken && exists v :: Sets(root, item, v))
  }

  ghost predicate Stores(flash: Flash, root: seq<Field>, item: Item, v: Value) {
    Sets(root, item, v) && item.key !in flash.broken
  }

  lemma OneMeaning(root: seq<Field>, item: Item, v: Value)
    ensures Sets(root, item, v) <==>
            Lookup(root, item.key).Some? && Read(item.kind, Lookup(root, item.key).value) == Set(v)
  {
    hide *;
    if Lookup(root, item.key).Some? && Read(item.kind, Lookup(root, item.key).value) == Set(v) {
      var j := Lookup(root, item.key).value;
      LookupExactly(root, item.key, j);
      ReadMeans(item.kind, j, v);
      MakeSets(root, item, j, v);
    }
    if Sets(root, item, v) {
      var j := SetsBy(root, item, v);
      LookupExactly(root, item.key, j);
      ReadMeans(item.kind, j, v);
    }
  }

  lemma MakeSets(root: seq<Field>, item: Item, j: Json, v: Value)
    requires Found(root, item.key, j) && Means(item.kind, j, v)
    ensures Sets(root, item, v)
  {
    hide Found, Means;
  }

  lemma SetsBy(root: seq<Field>, item: Item, v: Value) returns (j: Json)
    requires Sets(root, item, v)
    ensures Found(root, item.key, j) && Means(item.kind, j, v)
  {
    hide Found, Means;
    j :| Found(root, item.key, j) && Means(item.kind, j, v);
  }

  lemma OneUnreadable(root: seq<Field>, item: Item)
    ensures Unreadable(root, item) <==>
            Lookup(root, item.key).Some? && Read(item.kind, Lookup(root, item.key).value) == Bad
  {
    hide Lookup, Read, Found, Meaningless;
    if Lookup(root, item.key).Some? {
      var j := Lookup(root, item.key).value;
      LookupExactly(root, item.key, j);
      BadIsMeaningless(item.kind, j);
    }
    forall j | Found(root, item.key, j)
      ensures Lookup(root, item.key) == Some(j)
    {
      LookupExactly(root, item.key, j);
    }
  }

  lemma AloneStores(flash: Flash, root: seq<Field>, item: Item, entries: Entries, v: Value)
    requires Stores(flash, root, item, v)
    ensures Get(Alone(flash, root, item, entries).entries, item.key) == Some(v)
  {
    OneMeaning(root, item, v);
    hide Lookup, Read, Sets;
  }

  lemma AloneKeeps(flash: Flash, root: seq<Field>, item: Item, entries: Entries)
    requires forall v :: !Stores(flash, root, item, v)
    ensures Get(Alone(flash, root, item, entries).entries, item.key) == Get(entries, item.key)
  {
    hide Lookup, Read, Sets;
    if Lookup(root, item.key).Some? && Read(item.kind, Lookup(root, item.key).value).Set? {
      var v := Read(item.kind, Lookup(root, item.key).value).v;
      OneMeaning(root, item, v);
      assert !Stores(flash, root, item, v);
    }
  }

  lemma AloneFails(flash: Flash, root: seq<Field>, item: Item, entries: Entries)
    ensures Alone(flash, root, item, entries).failed <==> Fails(flash, root, item)
  {
    hide Lookup, Read, Sets, Unreadable;
    OneUnreadable(root, item);
    if Lookup(root, item.key).Some? && Read(item.kind, Lookup(root, item.key).value).Set? {
      OneMeaning(root, item, Read(item.kind, Lookup(root, item.key).value).v);
    }
    forall v
      ensures Sets(root, item, v) ==>
                Lookup(root, item.key).Some? && Read(item.kind, Lookup(root, item.key).value) == Set(v)
    {
      OneMeaning(root, item, v);
    }
  }

  /** What the call leaves: an item whose field means a value that can be written has it, every
      other item and every other key keeps its entry; and an error is reported exactly if some
      field means nothing or cannot be written, or the commit fails. */
  lemma PostExactly(flash: Flash, root: seq<Field>, table: seq<Item>, entries: Entries)
    requires DistinctKeys(table)
    ensures var o := FromJson(flash, root, table, entries);
            && (forall i, v :: 0 <= i < |table| && Stores(flash, root, table[i], v) ==>
                  Get(o.entries, table[i].key) == Some(v))
            && (forall i :: 0 <= i < |table| && (forall v :: !Stores(flash, root, table[i], v)) ==>
                  Get(o.entries, table[i].key) == Get(entries, table[i].key))
            && (forall key :: (forall i :: 0 <= i < |table| ==> table[i].key != key) ==>
                  Get(o.entries, key) == Get(entries, key))
            && (o.failed <==> !flash.commitOk || exists i :: 0 <= i < |table| && Fails(flash, root, table[i]))
  {
    EachItemAlone(flash, root, table, entries);
    hide StoreItems, Alone, Stores, Fails, Get;
    forall i, v | 0 <= i < |table| && Stores(flash, root, table[i], v)
      ensures Get(Alone(flash, root, table[i], entries).entries, table[i].key) == Some(v)
    {
      AloneStores(flash, root, table[i], entries, v);
    }
    forall i | 0 <= i < |table| && (forall v :: !Stores(flash, root, table[i], v))
      ensures Get(Alone(flash, root, table[i], entries).entries, table[i].key) == Get(entries, table[i].key)
    {
      AloneKeeps(flash, root, table[i], entries);
    }
    forall i | 0 <= i < |table|
      ensures Alone(flash, root, table[i], entries).failed <==> Fails(flash, root, table[i])
    {
      AloneFails(flash, root, table[i], entries);
    }
  }

  /** An item without a field keeps its entry and causes no error. */
  lemma AbsentKeeps(flash: Flash, root: seq<Field>, table: seq<Item>, entries: Entries, i: nat)
    requires DistinctKeys(table) && i < |table| && Absent(root, table[i].key)
    ensures Get(FromJson(flash, root, table, entries).entries, table[i].key) == Get(entries, table[i].key)
    ensures !Fails(flash, root, table[i])
  {
    hide *;
    NotFound(root, table[i]);
    NotStored(flash, root, table[i]);
    PostExactly(flash, root, table, entries);
  }

  lemma NotFound(root: seq<Field>, item: Item)
    requires Absent(root, item.key)
    ensures (forall v :: !Sets(root, item, v)) && !Unreadable(root, item)
  {
    hide SameName, Means, Meaningless;
  }

  lemma NotStored(flash: Flash, root: seq<Field>, item: Item)
    requires (forall v :: !Sets(root, item, v)) && !Unreadable(root, item)
    ensures (forall v :: !Stores(flash, root, item, v)) && !Fails(flash, root, item)
  {
    hide Sets, Unreadable;
  }

  // ---- Changing settings ----

  /** A number as such, or as its decimal text. */
  predicate NumberForm(j: Json, n: nat) {
    j == Num(n as real) || j == Str(Decimal(n))
  }

  /** A posted value that spells out v: texts and secrets as they are, numbers, switches and
      octets as such or as text. */
  ghost predicate Spells(kind: Kind, j: Json, v: Value) {
    match kind
    case StrItem => v.Text? && j == Str(v.s)
    case SecretItem => v.Text? && j == Str(v.s) && v.s != CFG_VALUE_UNCHANGED
    case BoolItem => v.Byte? && (j == Bool(v.n == 1) || NumberForm(j, v.n))
    case U8Item => v.Byte? && NumberForm(j, v.n)
    case U16Item => v.Half? && NumberForm(j, v.n)
    case U32Item => v.Word? && NumberForm(j, v.n)
    case IpItem =>
      v.Word? && j.Arr? && |j.items| == 4 && forall b :: 0 <= b < 4 ==> NumberForm(j.items[b], Octet(v.n, b))
  }

  lemma FormIsNumber(j: Json, n: nat, max: nat)
    requires NumberForm(j, n) && n <= max < UINT32
    ensures IsNumber(j, n, max)
  {
    DecimalReads(n, max);
    NumbersExactly(j, max, n);
    hide Decimal, Numeral;
  }

  lemma FormIsSwitch(j: Json, n: nat)
    requires NumberForm(j, n) && n <= 1
    ensures IsSwitch(j, n)
  {
    assert Decimal(0) == "0" && Decimal(1) == "1";
    hide Decimal;
  }

  lemma SpellsMeans(kind: Kind, j: Json, v: Value)
    requires WellTyped(kind, v) && Spells(kind, j, v)
    ensures Means(kind, j, v)
  {
    hide NumberForm, IsNumber, Octet;
    match kind
    case BoolItem => if j != Bool(v.n == 1) { FormIsSwitch(j, v.n); }
    case U8Item => FormIsNumber(j, v.n, 255);
    case U16Item => FormIsNumber(j, v.n, 65535);
    case U32Item => FormIsNumber(j, v.n, UINT32 - 1);
    case IpItem =>
      forall b | 0 <= b < 4
        ensures IsNumber(j.items[b], Octet(v.n, b), 255)
      {
        FormIsNumber(j.items[b], Octet(v.n, b), 255);
      }
    case _ =>
  }

  ghost predicate SpellsAll(root: seq<Field>, table: seq<Item>, entries: Entries) {
    && |root| == |table|
    && forall i :: 0 <= i < |table| ==>
         root[i].key == table[i].key && table[i].key in entries
         && Spells(table[i].kind, root[i].value, entries[table[i].key])
  }

  lemma ItemSet(table: seq<Item>, wanted: Entries, root: seq<Field>, i: nat)
    requires NoSameNames(table) && StoreOk(table, wanted) && SpellsAll(root, table, wanted) && i < |table|
    ensures Sets(root, table[i], wanted[table[i].key]) && !Unreadable(root, table[i])
  {
    hide Spells, Means, SameName, Meaningless;
    var j := root[i].value;
    SpellsMeans(table[i].kind, j, wanted[table[i].key]);
    SameAsItself(table[i].key);
    assert FoundAt(root, table[i].key, j, i);
    OneMeaning(root, table[i], wanted[table[i].key]);
    OneUnreadable(root, table[i]);
  }

  lemma SameAsItself(key: string)
    ensures SameName(key, key)
  {}

  lemma NoSameIsDistinct(table: seq<Item>)
    requires NoSameNames(table)
    ensures DistinctKeys(table)
  {
    hide SameName;
    forall i, j | 0 <= i < j < |table|
      ensures table[i].key != table[j].key
    {
      SameAsItself(table[i].key);
    }
  }

  lemma StoredNotFailed(flash: Flash, root: seq<Field>, item: Item, v: Value)
    requires Sets(root, item, v) && !Unreadable(root, item) && flash.broken == {}
    ensures Stores(flash, root, item, v) && !Fails(flash, root, item)
  {
    hide Sets, Unreadable;
  }

  /** Changing the settings: posting the values of any well-typed store, none of its secrets
      the placeholder, onto any store whatever, leaves those values at the table's keys, the
      rest as it was, and no error. */
  lemma PostChanges(flash: Flash, table: seq<Item>, before: Entries, wanted: Entries, root: seq<Field>)
    requires NoSameNames(table) && StoreOk(table, wanted) && SpellsAll(root, table, wanted)
    requires flash.broken == {} && flash.commitOk
    ensures var o := FromJson(flash, root, table, before);
            && !o.failed
            && (forall i :: 0 <= i < |table| ==> Get(o.entries, table[i].key) == Get(wanted, table[i].key))
            && (forall key :: (forall i :: 0 <= i < |table| ==> table[i].key != key) ==>
                  Get(o.entries, key) == Get(before, key))
  {
    NoSameIsDistinct(table);
    hide NoSameNames, SpellsAll, FromJson, Sets, Unreadable, Fails, Stores;
    PostExactly(flash, root, table, before);
    forall i | 0 <= i < |table|
      ensures Stores(flash, root, table[i], wanted[table[i].key]) && !Fails(flash, root, table[i])
    {
      ItemSet(table, wanted, root, i);
      StoredNotFailed(flash, root, table[i], wanted[table[i].key]);
    }
  }

  // ---- One field ----

  lemma SameEntries(a: Entries, b: Entries)
    requires forall key :: Get(a, key) == Get(b, key)
    ensures a == b
  {
    forall key
      ensures key in a <==> key in b
      ensures key in a ==> a[key] == b[key]
    {
      assert Get(a, key) == Get(b, key);
    }
  }

  lemma OthersAbsent(table: seq<Item>, i: nat, j: Json)
    requires NoSameNames(table) && i < |table|
    ensures forall k :: 0 <= k < |table| && k != i ==> Absent([Field(table[i].key, j)], table[k].key)
    ensures Found([Field(table[i].key, j)], table[i].key, j)
  {
    var root := [Field(table[i].key, j)];
    SameAsItself(table[i].key);
    assert FoundAt(root, table[i].key, j, 0);
    assert forall a, b :: SameName(a, b) <==> SameName(b, a);
    hide SameName;
  }

  lemma OthersKept(table: seq<Item>, i: nat, a: Entries, b: Entries)
    requires DistinctKeys(table) && i < |table|
    requires forall k :: 0 <= k < |table| && k != i ==> Get(a, table[k].key) == Get(b, table[k].key)
    requires forall key :: (forall k :: 0 <= k < |table| ==> table[k].key != key) ==> Get(a, key) == Get(b, key)
    ensures forall key :: key != table[i].key ==> Get(a, key) == Get(b, key)
  {
    hide Get;
    forall key | key != table[i].key
      ensures Get(a, key) == Get(b, key)
    {
      if k: nat :| k < |table| && table[k].key == key {
      } else {
        assert forall k :: 0 <= k < |table| ==> table[k].key != key;
      }
    }
  }

  /** A tree with one field, named as item i: the others are left alone. */
  lemma OneFieldOnly(flash: Flash, table: seq<Item>, i: nat, j: Json, entries: Entries)
    requires NoSameNames(table) && i < |table| && flash.commitOk
    ensures var root := [Field(table[i].key, j)]; var o := FromJson(flash, root, table, entries);
            && (forall key :: key != table[i].key ==> Get(o.entries, key) == Get(entries, key))
            && (forall v :: Stores(flash, root, table[i], v) ==> Get(o.entries, table[i].key) == Some(v))
            && ((forall v :: !Stores(flash, root, table[i], v)) ==>
                  Get(o.entries, table[i].key) == Get(entries, table[i].key))
            && (o.failed <==> Fails(flash, root, table[i]))
  {
    hide *;
    var root := [Field(table[i].key, j)];
    NoSameIsDistinct(table);
    OthersAbsent(table, i, j);
    PostExactly(flash, root, table, entries);
    forall k | 0 <= k < |table| && k != i
      ensures (forall v :: !Stores(flash, root, table[k], v)) && !Fails(flash, root, table[k])
    {
      NotFound(root, table[k]);
      NotStored(flash, root, table[k]);
    }
    OthersKept(table, i, FromJson(flash, root, table, entries).entries, entries);
  }

  lemma FieldMeans(item: Item, j: Json, v: Value)
    requires Found([Field(item.key, j)], item.key, j)
    ensures var root, flash := [Field(item.key, j)], Flash({}, true);
            && (Stores(flash, root, item, v) <==> Means(item.kind, j, v))
            && (Fails(flash, root, item) <==> Meaningless(item.kind, j))
  {
    var root := [Field(item.key, j)];
    LookupExactly(root, item.key, j);
    OneMeaning(root, item, v);
    OneUnreadable(root, item);
    ReadMeans(item.kind, j, v);
    BadIsMeaningless(item.kind, j);
    hide Sets, Unreadable, Means, MeansKeep, Meaningless, Found, Lookup, Read;
  }

  /** Such a tree sets its item to what the field means, leaves it for the placeholder, and
      reports an error if the field means nothing. */
  lemma OneField(table: seq<Item>, i: nat, j: Json, entries: Entries, v: Value)
    requires NoSameNames(table) && i < |table|
    ensures var item := table[i];
            var o := FromJson(Flash({}, true), [Field(item.key, j)], table, entries);
            && (Means(item.kind, j, v) ==> o == Outcome(entries[item.key := v], false))
            && (MeansKeep(item.kind, j) ==> o == Outcome(entries, false))
            && (Meaningless(item.kind, j) ==> o == Outcome(entries, true))
  {
    hide *;
    var item, flash := table[i], Flash({}, true);
    var root := [Field(item.key, j)];
    var o := FromJson(flash, root, table, entries);
    OthersAbsent(table, i, j);
    OneFieldOnly(flash, table, i, j, entries);
    forall u
      ensures Stores(flash, root, item, u) <==> Means(item.kind, j, u)
      ensures Fails(flash, root, item) <==> Meaningless(item.kind, j)
    {
      FieldMeans(item, j, u);
    }
    FieldMeans(item, j, v);
    KeepOrMean(item.kind, j, v);
    if Means(item.kind, j, v) {
      GetUpdated(entries, item.key, v);
      SameEntries(o.entries, entries[item.key := v]);
    } else if MeansKeep(item.kind, j) || Meaningless(item.kind, j) {
      SameEntries(o.entries, entries);
    }
  }

  lemma KeepOrMean(kind: Kind, j: Json, v: Value)
    ensures Means(kind, j, v) ==> !MeansKeep(kind, j) && !Meaningless(kind, j)
    ensures MeansKeep(kind, j) ==> (forall u :: !Means(kind, j, u)) && !Meaningless(kind, j)
    ensures Meaningless(kind, j) ==> forall u :: !Means(kind, j, u)
  {
    hide IsNumber, IsSwitch, IsAddress;
  }

  lemma GetUpdated(entries: Entries, key: string, v: Value)
    ensures Get(entries[key := v], key) == Some(v)
    ensures forall other :: other != key ==> Get(entries[key := v], other) == Get(entries, other)
  {}
}
