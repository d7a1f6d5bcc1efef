/**
 * Stored VPN credentials: one file per connection, named after the last
 * segment of its object path. A file holds a data stream (version 1, the
 * number of entries, then each key and the value's string form, in ascending
 * key order) encoded as Base64. This guards the values against a casual
 * search of the file system; it does not protect them.
 */
module Credentials {
  import opened Base64
  import opened DataStream
  import opened QStrings
  import opened QMaps
  import opened Variants
  import TokenRepository

  /** The only stream version the decoder accepts. */
  const Version: nat := 1

  /** One entry: the key, then the value's `toString()` (null when it has none). */
  function EntryBytes(k: string, v: Value): seq<Byte> {
    WriteString(Some(k)) + WriteString(ToQString(v))
  }

  function EntriesBytes(keys: seq<string>, m: PropertyMap): seq<Byte>
    requires forall k :: k in keys ==> k in m
  {
    if keys == [] then [] else EntryBytes(keys[0], m[keys[0]]) + EntriesBytes(keys[1..], m)
  }

  /** The data stream before Base64: version, entry count and the entries in QMap order. */
  function Serialized(m: PropertyMap): seq<Byte> {
    U32(Version) + U32(|m| % Two32) + EntriesBytes(SortedKeys(m.Keys), m)
  }

  /** The contents of a credentials file. */
  function Encoded(m: PropertyMap): seq<Byte> {
    Base64.Encode(Serialized(m))
  }

  lemma Associative(a: seq<Byte>, b: seq<Byte>, c: seq<Byte>)
    ensures a + (b + c) == (a + b) + c
  {
  }

  lemma AppendNothing(a: seq<Byte>, b: seq<Byte>)
    requires b == []
    ensures a + b == a
  {
  }

  /** `encodeCredentials` */
  method EncodeCredentials(m: PropertyMap) returns (encoded: seq<Byte>)
    ensures encoded == Encoded(m)
  {
    var stream := SerializeCredentials(m);
    encoded := Base64.Encode(stream);
  }

  lemma PrefixSnoc<T>(s: seq<T>, i: nat)
    requires i < |s|
    ensures s[..i + 1] == s[..i] + [s[i]]
  {
  }

  /** The entries of `a + b` are those of `a` followed by those of `b`. */
  lemma {:induction false} EntriesAppend(a: seq<string>, b: seq<string>, m: PropertyMap)
    requires forall k :: k in a ==> k in m
    requires forall k :: k in b ==> k in m
    ensures EntriesBytes(a + b, m) == EntriesBytes(a, m) + EntriesBytes(b, m)
  {
    if a == [] {
      assert a + b == b;
    } else {
      assert (a + b)[1..] == a[1..] + b;
      EntriesAppend(a[1..], b, m);
      Associative(EntryBytes(a[0], m[a[0]]), EntriesBytes(a[1..], m), EntriesBytes(b, m));
    }
  }

  /** One more key adds its entry at the end. */
  lemma EntriesStep(keys: seq<string>, i: nat, m: PropertyMap)
    requires i < |keys| && forall k :: k in keys ==> k in m
    ensures EntriesBytes(keys[..i + 1], m) == EntriesBytes(keys[..i], m) + EntryBytes(keys[i], m[keys[i]])
  {
    PrefixSnoc(keys, i);
    EntriesAppend(keys[..i], [keys[i]], m);
    assert [keys[i]][1..] == [];
    AppendNothing(EntryBytes(keys[i], m[keys[i]]), EntriesBytes([], m));
  }

  /** The data stream `encodeCredentials` writes before Base64. */
  method SerializeCredentials(m: PropertyMap) returns (stream: seq<Byte>)
    ensures stream == Serialized(m)
  {
    var keys := SortedKeys(m.Keys);
    assert forall k :: k in keys ==> k in m;
    var entries: seq<Byte> := [];
    var i := 0;
    while i < |keys|
      invariant 0 <= i <= |keys|
      invariant entries == EntriesBytes(keys[..i], m)
    {
      EntriesStep(keys, i, m);
      var entry := EntryBytes(keys[i], m[keys[i]]);
      assert entries + entry == EntriesBytes(keys[..i + 1], m);
      entries := entries + entry;
      i := i + 1;
    }
    assert keys[..i] == keys;
    stream := U32(Version) + U32(|m| % Two32) + entries;
  }

  /** The entries loop with `n` entries still to read; a later key overwrites an earlier one. */
  function ReadItems(b: seq<Byte>, n: nat, acc: PropertyMap): (r: PropertyMap)
    ensures forall k :: k in acc ==> k in r
    ensures (forall k :: k in acc ==> acc[k].VString?) ==> forall k :: k in r ==> r[k].VString?
    decreases n
  {
    if n == 0 then acc
    else
      var (k, b1) := ReadString(b);
      var (v, b2) := ReadString(b1);
      ReadItems(b2, n - 1, acc[k := VString(v)])
  }

  /** What `decodeCredentials` yields: no credentials unless the version is 1. */
  function Decoded(encoded: seq<Byte>): (r: PropertyMap)
    ensures forall k :: k in r ==> r[k].VString?
  {
    var (version, rest) := ReadU32(Base64.Decode(encoded));
    if version != Version then map[]
    else
      var (items, entries) := ReadU32(rest);
      ReadItems(entries, items, map[])
  }

  /** `decodeCredentials` */
  method DecodeCredentials(encoded: seq<Byte>) returns (rv: PropertyMap)
    ensures rv == Decoded(encoded)
  {
    rv := map[];
    var decoded := Base64.Decode(encoded);
    var (version, rest) := ReadU32(decoded);
    if version == Version {
      var (items, stream) := ReadU32(rest);
      var i := 0;
      while i < items
        invariant 0 <= i <= items
        invariant ReadItems(stream, items - i, rv) == Decoded(encoded)
      {
        var (key, afterKey) := ReadString(stream);
        var (value, afterValue) := ReadString(afterKey);
        rv := rv[key := VString(value)];
        stream := afterValue;
        i := i + 1;
      }
    }
  }

  /** The string form of each value, as the decoder hands it back. */
  function Stringified(m: PropertyMap): (r: PropertyMap)
    ensures r.Keys == m.Keys
  {
    map k | k in m :: VString(ToStr(m[k]))
  }

  /** Every key and value string fits its length field, and there are fewer than 2^32 entries. */
  predicate Storable(m: PropertyMap) {
    |m| < Two32 && forall k :: k in m ==> Fits(k) && (ToQString(m[k]).Some? ==> Fits(ToQString(m[k]).value))
  }

  /** The string forms of the values of `keys`. */
  function StringForms(keys: seq<string>, m: PropertyMap): PropertyMap
    requires forall k :: k in keys ==> k in m
  {
    map k | k in keys :: VString(ToStr(m[k]))
  }

  lemma StringFormsCons(keys: seq<string>, m: PropertyMap, acc: PropertyMap)
    requires keys != [] && forall k :: k in keys ==> k in m
    ensures acc[keys[0] := VString(ToStr(m[keys[0]]))] + StringForms(keys[1..], m) == acc + StringForms(keys, m)
  {
    assert forall j :: j in keys <==> j == keys[0] || j in keys[1..];
  }

  /** Reading one entry back. */
  lemma ReadEntry(k: string, v: Value, tail: seq<Byte>, n: nat, acc: PropertyMap)
    requires Fits(k) && (ToQString(v).Some? ==> Fits(ToQString(v).value))
    ensures ReadItems(EntryBytes(k, v) + tail, n + 1, acc) == ReadItems(tail, n, acc[k := VString(ToStr(v))])
  {
    Associative(WriteString(Some(k)), WriteString(ToQString(v)), tail);
    ReadString_WriteString(Some(k), WriteString(ToQString(v)) + tail);
    ReadString_WriteString(ToQString(v), tail);
  }

  lemma {:induction false} ReadEntries(keys: seq<string>, m: PropertyMap, acc: PropertyMap)
    requires forall k :: k in keys ==> k in m
    requires Storable(m)
    ensures ReadItems(EntriesBytes(keys, m), |keys|, acc) == acc + StringForms(keys, m)
  {
    if keys != [] {
      var k := keys[0];
      ReadEntry(k, m[k], EntriesBytes(keys[1..], m), |keys| - 1, acc);
      ReadEntries(keys[1..], m, acc[k := VString(ToStr(m[k]))]);
      StringFormsCons(keys, m, acc);
    }
  }

  lemma StringFormsOfAllKeys(m: PropertyMap)
    ensures map[] + StringForms(SortedKeys(m.Keys), m) == Stringified(m)
  {
  }

  /** Past Base64 and the header, decoding reads the entries back one by one. */
  lemma DecodedEntries(m: PropertyMap)
    requires Storable(m)
    ensures Decoded(Encoded(m)) == ReadItems(EntriesBytes(SortedKeys(m.Keys), m), |SortedKeys(m.Keys)|, map[])
  {
    var keys := SortedKeys(m.Keys);
    var entries := EntriesBytes(keys, m);
    var count := |m| % Two32;
    Truncate32Small(|m|);
    assert count == |keys|;
    var stream := Serialized(m);
    Associative(U32(Version), U32(count), entries);
    Base64.DecodeEncode(stream);
    assert Base64.Decode(Encoded(m)) == stream;
    ReadU32_U32(Version, U32(count) + entries);
    ReadU32_U32(count, entries);
  }

  /** Reading back what was stored gives every key with the string form of its value. */
  lemma CredentialsRoundTrip(m: PropertyMap)
    requires Storable(m)
    ensures Decoded(Encoded(m)) == Stringified(m)
  {
    DecodedEntries(m);
    ReadEntries(SortedKeys(m.Keys), m, map[]);
    StringFormsOfAllKeys(m);
  }

  /** A file opens with version 1 and the number of entries, before Base64. */
  lemma EncodedHeader(m: PropertyMap)
    ensures |Base64.Decode(Encoded(m))| >= 8 && Base64.Decode(Encoded(m))[..8] == U32(1) + U32(|m| % Two32)
  {
    Base64.DecodeEncode(Serialized(m));
    var header := U32(1) + U32(|m| % Two32);
    assert Serialized(m) == header + EntriesBytes(SortedKeys(m.Keys), m);
    assert Serialized(m)[..8] == header;
  }

  /** An empty or truncated file holds no credentials. */
  lemma ShortFileDecodesEmpty(encoded: seq<Byte>)
    requires |Base64.Decode(encoded)| < 4
    ensures Decoded(encoded) == map[]
  {
  }

  /**
   * A record whose version word is not 1 holds no credentials, whatever
   * follows it: a stream that starts with 0, 2 or 0xFFFFFFFF, or one too
   * short to hold the word, decodes to the empty map once Base64-encoded.
   */
  lemma OtherVersionDecodesEmpty(b: seq<Byte>)
    requires ReadU32(b).0 != Version
    ensures Decoded(Base64.Encode(b)) == map[]
  {
    Base64.DecodeEncode(b);
  }

  /**
   * `locationForObjectPath`: the same last path segment the token files
   * use, which is empty for a path without `/`.
   */
  function LocationForObjectPath(path: string): string
  {
    TokenRepository.TokenForObjectPath(path)
  }

  /** A credentials location is the last segment of its object path. */
  lemma LocationIsLastSegment(path: string)
    ensures var r := LocationForObjectPath(path);
      && '/' !in r
      && ('/' in path ==> |r| < |path| && path == path[..|path| - |r| - 1] + "/" + r)
      && ('/' !in path ==> r == "")
  {
    if '/' in path {
      TokenRepository.TokenIsLastSegment(path);
    }
  }

  class CredentialsRepository {
    /** The credentials files of the directory, by name. */
    var files: map<string, seq<Byte>>

    /** No file has an empty name. */
    ghost predicate Valid()
      reads this
    {
      "" !in files
    }

    /** The directory as found (or created empty). */
    constructor (existing: map<string, seq<Byte>>)
      requires "" !in existing
      ensures Valid() && files == existing
    {
      files := existing;
    }

    /** `credentialsExist`: asks the file system, since another process may change it. */
    function CredentialsExist(location: string): bool
      reads this
    {
      location in files
    }

    /** `storeCredentials`: fails, changing nothing, when the file cannot be opened for writing. */
    method StoreCredentials(location: string, credentials: PropertyMap, writeOk: bool) returns (ok: bool)
      requires Valid()
      modifies this
      ensures Valid()
      ensures ok == (writeOk && location != "")
      ensures files == if ok then old(files)[location := Encoded(credentials)] else old(files)
    {
      if !writeOk || location == "" {
        return false;
      }
      var encoded := EncodeCredentials(credentials);
      files := files[location := encoded];
      return true;
    }

    /** `removeCredentials`: succeeds when there is nothing to remove, fails when deletion fails. */
    method RemoveCredentials(location: string, deleteOk: bool) returns (ok: bool)
      requires Valid()
      modifies this
      ensures Valid()
      ensures ok == (!old(CredentialsExist(location)) || deleteOk)
      ensures files == if old(CredentialsExist(location)) && deleteOk then old(files) - {location} else old(files)
    {
      if location in files {
        if !deleteOk {
          return false;
        }
        files := files - {location};
      }
      return true;
    }

    /** `credentials`: the decoded file, or nothing when it cannot be read. */
    method ReadCredentials(location: string, readOk: bool) returns (rv: PropertyMap)
      ensures rv == if readOk && location in files then Decoded(files[location]) else map[]
      ensures forall k :: k in rv ==> rv[k].VString?
    {
      rv := map[];
      if readOk && location in files {
        rv := DecodeCredentials(files[location]);
      }
    }
  }
}
