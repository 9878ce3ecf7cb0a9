/**
 internal/engine/secrets/keychain.go: secrets in the keychain, base64 behind a prefix, and the
 migration of the two older places of a secret.  Every effect of an operation is recorded, so
 that what holds of all recorded states holds wherever a crash stops it.
 */
module Keychain {
  import opened Options
  import opened Base64

  // ---------------------------------------------------------------- stored forms

  function Ascii(text: string): Bytes
    requires forall i :: 0 <= i < |text| ==> text[i] < '\U{80}'
  {
    seq(|text|, i requires 0 <= i < |text| => text[i] as int)
  }

  const PREFIX: Bytes := Ascii("mirabilis-b64:")

  function Stored(value: Bytes): Bytes {
    PREFIX + Encode(value)
  }

  /** decodeValue: anything that is not the prefix and good base64 stands for itself. */
  function DecodeValue(raw: Bytes): Bytes {
    if PREFIX <= raw then
      var decoded := Decode(raw[|PREFIX|..]);
      if decoded.Some? then decoded.value else raw
    else raw
  }

  predicate IsSpace(b: Byte) {
    9 <= b <= 13 || b == 32
  }

  /** strings.TrimSpace, of the ASCII spaces. */
  function Trim(s: Bytes): (r: Bytes)
    ensures s != [] && !IsSpace(s[0]) && !IsSpace(s[|s| - 1]) ==> r == s
  {
    if s == [] then []
    else if IsSpace(s[0]) then Trim(s[1..])
    else if IsSpace(s[|s| - 1]) then Trim(s[..|s| - 1])
    else s
  }

  /** The ASCII characters with the Unicode property White_Space. */
  lemma SpacesAre(b: Byte)
    ensures IsSpace(b) <==> b in Ascii("\t\n\U{0b}\U{0c}\r ")
  {
    assert Ascii("\t\n\U{0b}\U{0c}\r ") == [9, 10, 11, 12, 13, 32];
  }

  /** What is cut off is white space, and all of it. */
  lemma {:induction false} TrimMeaning(s: Bytes) returns (i: nat, j: nat)
    ensures i <= j <= |s| && Trim(s) == s[i..j]
    ensures forall k :: 0 <= k < i || j <= k < |s| ==> IsSpace(s[k])
    ensures i < j ==> !IsSpace(s[i]) && !IsSpace(s[j - 1])
  {
    i, j := 0, |s|;
    if s != [] && IsSpace(s[0]) {
      i, j := TrimMeaning(s[1..]);
      i, j := i + 1, j + 1;
    } else if s != [] && IsSpace(s[|s| - 1]) {
      i, j := TrimMeaning(s[..|s| - 1]);
    }
  }

  /** Values from before the prefix was used, and whatever only looks encoded, are read as they
      are. */
  lemma OtherFormsAreRead(raw: Bytes)
    ensures !(Ascii("mirabilis-b64:") <= raw) ==> DecodeValue(raw) == raw
    ensures Ascii("mirabilis-b64:") <= raw && Decode(raw[14..]) == None ==> DecodeValue(raw) == raw
    ensures forall value {:trigger Encode(value)} ::
              raw == Ascii("mirabilis-b64:") + Encode(value) ==> DecodeValue(raw) == value
  {
    assert |Ascii("mirabilis-b64:")| == 14;
    forall value | raw == Ascii("mirabilis-b64:") + Encode(value) ensures DecodeValue(raw) == value {
      StoredIsRead(value);
    }
  }

  lemma PrefixEnds()
    ensures |PREFIX| == 14 && PREFIX[0] == 109 && PREFIX[13] == 58
  {
  }

  lemma EncodeEnds(value: Bytes)
    requires value != []
    ensures Encode(value) != [] && !IsSpace(Encode(value)[|Encode(value)| - 1])
  {
    var last := Encode(value)[|Encode(value)| - 1];
    assert last == PAD || Digit(last).Some?;
  }

  /** What Set stores, read back as Get reads it, is the value that was set. */
  lemma StoredIsRead(value: Bytes)
    ensures Trim(Stored(value)) == Stored(value)
    ensures DecodeValue(Stored(value)) == value
  {
    DecodeOfEncode(value);
    assert Stored(value)[|PREFIX|..] == Encode(value);
    PrefixEnds();
    if value != [] {
      EncodeEnds(value);
    }
  }

  // ---------------------------------------------------------------- where secrets are

  /** The keychain entries of the account, and the legacy files. */
  datatype Disk = Disk(entries: map<string, Bytes>, files: map<string, Bytes>)

  function EntryName(key: string): string { "mirabilis-" + key }
  function LegacyEntry(key: string): string { EntryName(key) + "-token" }
  function FileName(key: string): string { ".mirabilis-" + key }

  /** The value of a key: its entry, else its legacy entry, else its legacy file. */
  function Resolve(d: Disk, key: string): Option<Bytes> {
    if EntryName(key) in d.entries then Some(DecodeValue(Trim(d.entries[EntryName(key)])))
    else if LegacyEntry(key) in d.entries then Some(DecodeValue(Trim(d.entries[LegacyEntry(key)])))
    else if FileName(key) in d.files then Some(Trim(d.files[FileName(key)]))
    else None
  }

  /** Where a secret is looked for, in this order, and how it is read there. */
  lemma LookupOrder(d: Disk, key: string)
    ensures "mirabilis-" + key in d.entries ==>
              Resolve(d, key) == Some(DecodeValue(Trim(d.entries["mirabilis-" + key])))
    ensures "mirabilis-" + key !in d.entries && "mirabilis-" + key + "-token" in d.entries ==>
              Resolve(d, key) == Some(DecodeValue(Trim(d.entries["mirabilis-" + key + "-token"])))
    ensures "mirabilis-" + key !in d.entries && "mirabilis-" + key + "-token" !in d.entries ==>
              Resolve(d, key) == if ".mirabilis-" + key in d.files then Some(Trim(d.files[".mirabilis-" + key])) else None
  {
  }

  /** The entry of one key is the legacy entry of the other. */
  predicate Collide(a: string, b: string) {
    a == b + "-token" || b == a + "-token"
  }

  /** Different keys that do not collide share no entry and no file. */
  lemma Separate(a: string, b: string)
    requires a != b
    ensures EntryName(a) != EntryName(b) && LegacyEntry(a) != LegacyEntry(b) && FileName(a) != FileName(b)
    ensures (EntryName(a) == LegacyEntry(b) || LegacyEntry(a) == EntryName(b)) <==> Collide(a, b)
  {
    assert EntryName(a)[10..] == a && EntryName(b)[10..] == b;
    assert FileName(a)[11..] == a && FileName(b)[11..] == b;
    assert LegacyEntry(a)[10..] == a + "-token" && LegacyEntry(b)[10..] == b + "-token";
    assert (a + "-token")[..|a|] == a && (b + "-token")[..|b|] == b;
    assert |a + "-token"| == |a| + 6 && |b + "-token"| == |b| + 6;
  }

  /** Every key but those that collide with this one resolves as before. */
  ghost predicate SafeFor(before: Disk, after: Disk, key: string) {
    forall k {:trigger Resolve(after, k)} :: !Collide(key, k) ==> Resolve(after, k) == Resolve(before, k)
  }

  function WithEntry(d: Disk, entry: string, stored: Bytes): Disk {
    d.(entries := d.entries[entry := stored])
  }

  function WithoutEntry(d: Disk, entry: string): Disk {
    d.(entries := d.entries - {entry})
  }

  function WithoutFile(d: Disk, name: string): Disk {
    d.(files := d.files - {name})
  }

  /** First step of a migration: the value the key already has becomes its entry. */
  lemma AddIsSafe(d: Disk, key: string, value: Bytes)
    requires Resolve(d, key) == Some(value)
    ensures SafeFor(d, WithEntry(d, EntryName(key), Stored(value)), key)
    ensures Resolve(WithEntry(d, EntryName(key), Stored(value)), key) == Some(value)
  {
    StoredIsRead(value);
    forall k | k != key && !Collide(key, k)
      ensures Resolve(WithEntry(d, EntryName(key), Stored(value)), k) == Resolve(d, k)
    {
      Separate(key, k);
    }
  }

  /** Second step: once the entry is there, its older places no longer matter. */
  lemma CleanIsSafe(d: Disk, key: string)
    requires EntryName(key) in d.entries
    ensures SafeFor(d, WithoutEntry(d, LegacyEntry(key)), key)
    ensures SafeFor(d, WithoutFile(d, FileName(key)), key)
  {
    assert |LegacyEntry(key)| > |EntryName(key)|;
    forall k | k != key && !Collide(key, k)
      ensures Resolve(WithoutEntry(d, LegacyEntry(key)), k) == Resolve(d, k)
      ensures Resolve(WithoutFile(d, FileName(key)), k) == Resolve(d, k)
    {
      Separate(key, k);
    }
  }

  /** A finished migration. */
  function Migrated(d: Disk, key: string, value: Bytes): Disk {
    WithoutFile(WithoutEntry(WithEntry(d, EntryName(key), Stored(value)), LegacyEntry(key)), FileName(key))
  }

  /** Where a Get leaves everything when no command fails. */
  function Settled(d: Disk, key: string): Disk {
    if EntryName(key) in d.entries || Resolve(d, key).None? then d else Migrated(d, key, Resolve(d, key).value)
  }

  // ---------------------------------------------------------------- the store

  datatype Found = Got(raw: Bytes) | Absent | Interrupted

  datatype Reply = Value(value: Bytes) | NotFound | Failed

  class KeychainStore {
    var disk: Disk
    const account: string
    ghost var trace: seq<Disk>
    ghost var failures: nat          // commands that failed though nothing was missing

    constructor (disk: Disk, account: string)
      ensures Valid() && this.disk == disk && this.account == account && trace == [disk]
    {
      this.disk, this.account, trace, failures := disk, account, [disk], 0;
    }

    /** The trace ends in the present state. */
    ghost predicate Valid()
      reads this
    {
      trace != [] && trace[|trace| - 1] == disk
    }

    /** find-generic-password: fails when there is no entry, or because time is up. */
    method Find(entry: string) returns (found: Found)
      modifies this`failures
      ensures failures == old(failures) + if found.Interrupted? then 1 else 0
      ensures found.Got? ==> entry in disk.entries && found.raw == Trim(disk.entries[entry])
      ensures found.Absent? ==> entry !in disk.entries
    {
      if * {
        failures := failures + 1;
        return Interrupted;
      }
      if entry in disk.entries {
        return Got(Trim(disk.entries[entry]));
      }
      return Absent;
    }

    /** add-generic-password -U: when it reports failure it may still have stored the value. */
    method Add(entry: string, stored: Bytes) returns (ok: bool)
      requires Valid()
      modifies this
      ensures Valid()
      ensures if trace == old(trace) then disk == old(disk) && !ok
              else trace == old(trace) + [disk] && disk == WithEntry(old(disk), entry, stored)
      ensures failures == old(failures) + if ok then 0 else 1
    {
      if * {
        failures := failures + 1;
        return false;
      }
      disk := WithEntry(disk, entry, stored);
      trace := trace + [disk];
      if * {
        failures := failures + 1;
        return false;
      }
      return true;
    }

    /** delete-generic-password, whose failure nobody looks at. */
    method Delete(entry: string)
      requires Valid()
      modifies this
      ensures Valid()
      ensures if trace == old(trace) then disk == old(disk)
              else trace == old(trace) + [disk] && disk == WithoutEntry(old(disk), entry)
      ensures failures >= old(failures)
      ensures failures == old(failures) ==> disk == WithoutEntry(old(disk), entry)
    {
      if * {
        failures := failures + 1;
      } else {
        disk := WithoutEntry(disk, entry);
        trace := trace + [disk];
      }
    }

    method RemoveFile(name: string)
      requires Valid()
      modifies this
      ensures Valid()
      ensures if trace == old(trace) then disk == old(disk)
              else trace == old(trace) + [disk] && disk == WithoutFile(old(disk), name)
      ensures failures >= old(failures)
      ensures failures == old(failures) ==> disk == WithoutFile(old(disk), name)
    {
      if * {
        failures := failures + 1;
      } else {
        disk := WithoutFile(disk, name);
        trace := trace + [disk];
      }
    }

    predicate Quoted(key: string) {
      '\'' in account || '\'' in EntryName(key)
    }

    /** Stores a value; a quote in the account or the entry name is refused. */
    method Set(key: string, value: Bytes) returns (ok: bool)
      requires Valid()
      modifies this
      ensures Valid()
      ensures if trace == old(trace) then disk == old(disk) && !ok
              else trace == old(trace) + [disk] && disk == WithEntry(old(disk), EntryName(key), Stored(value))
      ensures ok ==> EntryName(key) in disk.entries && Resolve(disk, key) == Some(value)
      ensures failures >= old(failures)
      ensures if '\'' in account || '\'' in key then !ok && disk == old(disk) else ok <==> failures == old(failures)
    {
      var entry := EntryName(key);
      if Quoted(key) {
        return false;
      }
      StoredIsRead(value);
      var added := Add(entry, PREFIX + Encode(value));
      if !added {
        return false;
      }
      var got := Find(entry);
      if !got.Got? || got.raw == [] {
        return false;
      }
      return DecodeValue(got.raw) == value;
    }

    /** In every state since then, no key but a colliding one resolves differently. */
    ghost predicate SafeSince(was: seq<Disk>, before: Disk, key: string)
      reads this
    {
      was <= trace && forall i :: |was| <= i < |trace| ==> SafeFor(before, trace[i], key)
    }

    /**
     Reads a secret, moving it to its entry when an older place has it.  Wherever a crash or
     a failing command stops this, the key, and every key that does not collide with it,
     resolves to what it did before.
     */
    method Get(key: string) returns (reply: Reply)
      requires Valid()
      modifies this
      ensures Valid() && SafeSince(old(trace), old(disk), key) && SafeFor(old(disk), disk, key)
      ensures reply.Value? ==> Resolve(old(disk), key) == Some(reply.value) && EntryName(key) in disk.entries
      ensures reply.NotFound? ==> Resolve(old(disk), key) == None && disk == old(disk)
      ensures failures >= old(failures)
      ensures failures == old(failures) && '\'' !in account && '\'' !in key ==>
                !reply.Failed? && disk == Settled(old(disk), key)
    {
      var found := Find(EntryName(key));
      if found.Got? {
        return Value(DecodeValue(found.raw));
      }
      if found.Interrupted? {
        return Failed;
      }
      reply := Migrate(key);
    }

    /** First half of a migration: the entry is set to the value the key already has. */
    method Keep(key: string, value: Bytes) returns (ok: bool)
      requires Valid() && Resolve(disk, key) == Some(value)
      modifies this
      ensures Valid() && SafeSince(old(trace), old(disk), key) && SafeFor(old(disk), disk, key)
      ensures ok ==> disk == WithEntry(old(disk), EntryName(key), Stored(value))
      ensures failures >= old(failures)
      ensures failures == old(failures) && '\'' !in account && '\'' !in key ==> ok
    {
      AddIsSafe(disk, key, value);
      ok := Set(key, value);
    }

    /** Second half: the older places are cleared, the legacy entry before the file. */
    method Forget(key: string, entryToo: bool)
      requires Valid() && EntryName(key) in disk.entries
      modifies this
      ensures Valid() && SafeSince(old(trace), old(disk), key) && SafeFor(old(disk), disk, key)
      ensures EntryName(key) in disk.entries
      ensures failures >= old(failures)
      ensures failures == old(failures) ==>
                disk == WithoutFile(if entryToo then WithoutEntry(old(disk), LegacyEntry(key)) else old(disk), FileName(key))
    {
      assert |LegacyEntry(key)| > |EntryName(key)|;
      CleanIsSafe(disk, key);
      if entryToo {
        Delete(LegacyEntry(key));
      }
      CleanIsSafe(disk, key);
      RemoveFile(FileName(key));
    }

    method Migrate(key: string) returns (reply: Reply)
      requires Valid() && EntryName(key) !in disk.entries
      modifies this
      ensures Valid() && SafeSince(old(trace), old(disk), key) && SafeFor(old(disk), disk, key)
      ensures reply.Value? ==> Resolve(old(disk), key) == Some(reply.value) && EntryName(key) in disk.entries
      ensures reply.NotFound? ==> Resolve(old(disk), key) == None && disk == old(disk)
      ensures failures >= old(failures)
      ensures failures == old(failures) && '\'' !in account && '\'' !in key ==>
                !reply.Failed? && disk == Settled(old(disk), key)
    {
      var found := Find(LegacyEntry(key));
      if found.Got? {
        var value := DecodeValue(found.raw);
        var kept := Keep(key, value);
        if !kept {
          return Failed;
        }
        Forget(key, true);
        return Value(value);
      }
      if found.Interrupted? {
        return Failed;
      }
      if FileName(key) !in disk.files {
        return NotFound;
      }
      var value := Trim(disk.files[FileName(key)]);
      var kept := Keep(key, value);
      if !kept {
        return Failed;
      }
      Forget(key, false);
      return Value(value);
    }
  }

  /** Colliding keys are not safe: migrating a key deletes the entry of the key named like
      its legacy entry, which is then lost unless an older place still has it. */
  lemma CollisionLoses(d: Disk, key: string)
    requires EntryName(key) !in d.entries && LegacyEntry(key) in d.entries
    ensures var twin := key + "-token";
            && Collide(key, twin) && Resolve(d, twin).Some?
            && forall value :: Resolve(Migrated(d, key, value), twin) == Resolve(WithoutEntry(d, EntryName(twin)), twin)
  {
    var twin := key + "-token";
    assert EntryName(twin) == LegacyEntry(key);
    Separate(key, twin);
    assert |LegacyEntry(twin)| > |LegacyEntry(key)| > |EntryName(key)|;
  }

  /** The key has no entry, or an older place of it holds the same value. */
  predicate Spare(d: Disk, key: string) {
    EntryName(key) !in d.entries || Resolve(WithoutEntry(d, EntryName(key)), key) == Resolve(d, key)
  }

  /** The key has its own entry, or this value already. */
  predicate Settles(d: Disk, key: string, value: Bytes) {
    EntryName(key) in d.entries || Resolve(d, key) == Some(value)
  }

  /** Migrating a key leaves its twin, the key with -token appended, as it was if and only if
      the twin can spare its entry: it is taken for the legacy entry and deleted. */
  lemma TwinKeptIff(d: Disk, key: string, value: Bytes)
    requires EntryName(key) !in d.entries
    ensures var twin := key + "-token";
            Resolve(Migrated(d, key, value), twin) == Resolve(d, twin) <==> Spare(d, twin)
  {
    if LegacyEntry(key) in d.entries {
      CollisionLoses(d, key);
    } else {
      Separate(key, key + "-token");
    }
    assert EntryName(key + "-token") == LegacyEntry(key);
    assert |LegacyEntry(key + "-token")| > |LegacyEntry(key)| > |EntryName(key)|;
  }

  /** Migrating a key that ends in -token leaves the key without the ending as it was if and
      only if that one has an entry of its own, or resolved to this value already: the new
      entry is taken for its legacy entry. */
  lemma BaseKeptIff(d: Disk, base: string, value: Bytes)
    requires EntryName(base + "-token") !in d.entries
    ensures var key := base + "-token";
            Resolve(Migrated(d, key, value), base) == Resolve(d, base) <==> Settles(d, base, value)
  {
    var key := base + "-token";
    assert EntryName(key) == LegacyEntry(base);
    Separate(key, base);
    assert |LegacyEntry(key)| > |LegacyEntry(base)| > |EntryName(base)|;
    StoredIsRead(value);
  }

  /** A migration is safe for exactly those keys; together with AddIsSafe and CleanIsSafe this
      covers every other key. */
  lemma MigrationSafeIff(d: Disk, key: string, value: Bytes, other: string)
    requires EntryName(key) !in d.entries && Resolve(d, key) == Some(value)
    ensures Resolve(Migrated(d, key, value), other) == Resolve(d, other)
            <==> (other == key + "-token" ==> Spare(d, other)) && (key == other + "-token" ==> Settles(d, other, value))
  {
    if other == key + "-token" {
      TwinKeptIff(d, key, value);
    } else if key == other + "-token" {
      BaseKeptIff(d, other, value);
    } else {
      var added := WithEntry(d, EntryName(key), Stored(value));
      AddIsSafe(d, key, value);
      CleanIsSafe(added, key);
      CleanIsSafe(WithoutEntry(added, LegacyEntry(key)), key);
    }
  }

  /** A secret stored under key-token only is lost when key is asked for. */
  lemma TwinIsLost(key: string, value: Bytes)
    ensures var d := Disk(map[EntryName(key + "-token") := Stored(value)], map[]);
            && Settled(d, key) == Migrated(d, key, value)
            && Resolve(d, key + "-token") == Some(value)
            && Resolve(Settled(d, key), key + "-token") == None
  {
    var twin := key + "-token";
    assert EntryName(twin) == LegacyEntry(key);
    Separate(key, twin);
    assert |LegacyEntry(twin)| > |LegacyEntry(key)| > |EntryName(key)|;
    StoredIsRead(value);
  }

  /** A secret that was never stored under base appears when base-token is migrated. */
  lemma BaseAppears(base: string, value: Bytes)
    ensures var key := base + "-token";
            var d := Disk(map[LegacyEntry(key) := Stored(value)], map[]);
            && Settled(d, key) == Migrated(d, key, value)
            && Resolve(d, base) == None
            && Resolve(Settled(d, key), base) == Some(value)
  {
    var key := base + "-token";
    assert EntryName(key) == LegacyEntry(base);
    Separate(key, base);
    assert |LegacyEntry(key)| > |LegacyEntry(base)| > |EntryName(base)|;
    StoredIsRead(value);
  }
}
