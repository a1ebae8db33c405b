/** Object keys, the URLs written into file records, and the key recovered from a record. */
module ObjectKeys {
  import opened Wrappers
  import opened PercentCoding

  // ---------------------------------------------------------------- slashes

  /** s.replace(/\/+$/, ''). */
  function TrimTrailing(s: string): string {
    if s != "" && s[|s| - 1] == '/' then TrimTrailing(s[..|s| - 1]) else s
  }

  /** s.replace(/\/$/, ''): one slash only. */
  function TrimOne(s: string): string {
    if s != "" && s[|s| - 1] == '/' then s[..|s| - 1] else s
  }

  /** s.replace(/^\/+/, ''). */
  function TrimLeading(s: string): string {
    if s != "" && s[0] == '/' then TrimLeading(s[1..]) else s
  }

  lemma {:induction false} TrimmedTail(s: string)
    ensures TrimTrailing(s) <= s
    ensures forall k :: |TrimTrailing(s)| <= k < |s| ==> s[k] == '/'
  {
    if s != "" && s[|s| - 1] == '/' {
      TrimmedTail(s[..|s| - 1]);
    }
  }

  lemma {:induction false} TrimmedHead(s: string)
    ensures TrimLeading(s) != "" ==> TrimLeading(s)[0] != '/'
  {
    if s != "" && s[0] == '/' {
      TrimmedHead(s[1..]);
    }
  }

  // ---------------------------------------------------------------- splitting

  function Split(s: string): (parts: seq<string>)
    ensures |parts| > 0
  {
    if s == "" then [""]
    else if s[0] == '/' then [""] + Split(s[1..])
    else [[s[0]] + Split(s[1..])[0]] + Split(s[1..])[1..]
  }

  function Join(parts: seq<string>): string
    requires |parts| > 0
  {
    if |parts| == 1 then parts[0] else parts[0] + "/" + Join(parts[1..])
  }

  function EncodeAll(parts: seq<string>): (encoded: seq<string>)
    ensures |encoded| == |parts|
  {
    if parts == [] then [] else [Encode(parts[0])] + EncodeAll(parts[1..])
  }

  /** key.split('/').map(encodeURIComponent).join('/'). */
  function EncodeObjectKey(key: string): string {
    Join(EncodeAll(Split(key)))
  }

  /** Segment by segment is character by character, with slashes kept. */
  lemma {:induction false} EncodeKeyStep(key: string)
    requires key != ""
    ensures EncodeObjectKey(key) == (if key[0] == '/' then "/" else EncodeChar(key[0])) + EncodeObjectKey(key[1..])
  {
  }

  /** One decode of the whole remainder recovers a key encoded segment by segment. */
  lemma {:induction false} DecodeObjectKey(key: string)
    ensures Decode(EncodeObjectKey(key)) == Some(key)
  {
    if key == "" {
      assert EncodeAll([""]) == [""];
    } else {
      EncodeKeyStep(key);
      DecodeObjectKey(key[1..]);
      assert [key[0]] + key[1..] == key;
      if key[0] == '/' {
        DecodePlain('/', EncodeObjectKey(key[1..]));
      } else {
        DecodeOne(key[0], EncodeObjectKey(key[1..]));
      }
    }
  }

  lemma {:induction false} EncodedHead(key: string)
    requires key != "" ==> key[0] != '/'
    ensures EncodeObjectKey(key) != "" ==> EncodeObjectKey(key)[0] != '/'
  {
  }

  // ---------------------------------------------------------------- records

  datatype StorageType = Local | Aliyun | Tencent

  datatype StoredObject = StoredObject(key: string, url: string, storageType: StorageType)

  /** The settings as read: the URL prefix, the trimmed object prefix, and the public base
      URL of a bucket. */
  datatype Settings = Settings(urlPrefix: string, objectPrefix: string, publicBase: string)

  function ObjectPrefix(c: Settings): string {
    TrimLeading(TrimTrailing(c.objectPrefix))
  }

  function WithObjectPrefix(c: Settings, key: string): string {
    if ObjectPrefix(c) != "" then ObjectPrefix(c) + "/" + TrimLeading(key) else TrimLeading(key)
  }

  /** What put and putFile return for a key. */
  function Put(c: Settings, storageType: StorageType, key: string): StoredObject {
    var normalized := WithObjectPrefix(c, key);
    StoredObject(
      normalized,
      TrimTrailing(if storageType.Local? then c.urlPrefix else c.publicBase) + "/" + EncodeObjectKey(normalized),
      storageType)
  }

  /** getStorageKey of a record; None when decoding throws. The file service keeps its own
      copy of the URL prefix and strips at most one slash from it. */
  function GetStorageKey(c: Settings, record: StoredObject): Option<string> {
    if !record.storageType.Local? then Some(TrimLeading(record.key))
    else
      var prefix := TrimOne(c.urlPrefix) + "/";
      if prefix <= record.url then Decode(record.url[|prefix|..]) else Some(TrimLeading(record.key))
  }

  lemma {:induction false} NormalizedHead(c: Settings, key: string)
    ensures WithObjectPrefix(c, key) != "" ==> WithObjectPrefix(c, key)[0] != '/'
  {
    TrimmedHead(key);
    TrimmedHead(TrimTrailing(c.objectPrefix));
  }

  /** With two or more trailing slashes the service's prefix is longer than the one used
      in the URL, and no stored URL starts with it. */
  lemma {:induction false} LongerPrefixNeverMatches(urlPrefix: string, encoded: string)
    requires TrimOne(urlPrefix) != TrimTrailing(urlPrefix)
    requires encoded != "" ==> encoded[0] != '/'
    ensures !(TrimOne(urlPrefix) + "/" <= TrimTrailing(urlPrefix) + "/" + encoded)
  {
    var base, prefix := TrimTrailing(urlPrefix), TrimOne(urlPrefix) + "/";
    var url := base + "/" + encoded;
    TrimmedTail(urlPrefix);
    TrimmedTail(urlPrefix[..|urlPrefix| - 1]);
    assert base == TrimTrailing(urlPrefix[..|urlPrefix| - 1]);
    assert |prefix| >= |base| + 2;
    assert prefix[|base| + 1] == '/';
    assert |url| > |base| + 1 ==> url[|base| + 1] == encoded[0];
  }

  /** For every key, object prefix and URL prefix, the storage key recovered from the record of
      an upload is the key under which the object was stored. */
  lemma {:induction false} StorageKeyRecovered(c: Settings, storageType: StorageType, key: string)
    ensures GetStorageKey(c, Put(c, storageType, key)) == Some(Put(c, storageType, key).key)
  {
    var record := Put(c, storageType, key);
    NormalizedHead(c, key);
    if record.storageType.Local? {
      var encoded := EncodeObjectKey(record.key);
      EncodedHead(record.key);
      if TrimOne(c.urlPrefix) == TrimTrailing(c.urlPrefix) {
        assert record.url[|TrimOne(c.urlPrefix) + "/"|..] == encoded;
        DecodeObjectKey(record.key);
      } else {
        LongerPrefixNeverMatches(c.urlPrefix, encoded);
      }
    }
  }

  // ---------------------------------------------------------------- what is stored and written

  function Slashes(n: nat): string {
    seq(n, i => '/')
  }

  predicate NoLeading(s: string) {
    s != "" ==> s[0] != '/'
  }

  predicate NoTrailing(s: string) {
    s != "" ==> s[|s| - 1] != '/'
  }

  lemma {:induction false} LeadingTrimmed(n: nat, s: string)
    requires NoLeading(s)
    ensures TrimLeading(Slashes(n) + s) == s
  {
    if n > 0 {
      assert (Slashes(n) + s)[1..] == Slashes(n - 1) + s;
      LeadingTrimmed(n - 1, s);
    } else {
      assert Slashes(0) + s == s;
    }
  }

  lemma {:induction false} TrailingTrimmed(s: string, n: nat)
    requires NoTrailing(s)
    ensures TrimTrailing(s + Slashes(n)) == s
    ensures TrimOne(s + Slashes(n)) == s + Slashes(if n > 0 then n - 1 else 0)
  {
    var t := s + Slashes(n);
    if n > 0 {
      assert t[..|t| - 1] == s + Slashes(n - 1);
      TrailingTrimmed(s, n - 1);
    } else {
      assert t == s && s + Slashes(0) == s;
    }
  }

  /** The stored key is the prefix, a slash and the key, without the slashes around either, or the key
      alone without a prefix; the URL is the base without its trailing slashes, a slash and the
      encoded key, whether the file is local or in a bucket. */
  lemma {:induction false} PutMeans(c: Settings, storageType: StorageType, prefix: string, key: string, base: string,
                                    a: nat, b: nat, n: nat, m: nat)
    requires NoLeading(prefix) && NoTrailing(prefix) && NoLeading(key) && NoTrailing(base)
    requires c.objectPrefix == Slashes(a) + prefix + Slashes(b)
    requires (if storageType.Local? then c.urlPrefix else c.publicBase) == base + Slashes(m)
    ensures var stored := if prefix == "" then key else prefix + "/" + key;
            Put(c, storageType, Slashes(n) + key) == StoredObject(stored, base + "/" + EncodeObjectKey(stored), storageType)
  {
    PrefixTrimmed(a, prefix, b);
    LeadingTrimmed(n, key);
    TrailingTrimmed(base, m);
  }

  lemma {:induction false} PrefixTrimmed(a: nat, prefix: string, b: nat)
    requires NoLeading(prefix) && NoTrailing(prefix)
    ensures TrimLeading(TrimTrailing(Slashes(a) + prefix + Slashes(b))) == prefix
  {
    if prefix == "" {
      assert Slashes(a) + prefix + Slashes(b) == "" + Slashes(a + b);
      TrailingTrimmed("", a + b);
    } else {
      assert (Slashes(a) + prefix)[|Slashes(a) + prefix| - 1] == prefix[|prefix| - 1];
      TrailingTrimmed(Slashes(a) + prefix, b);
      LeadingTrimmed(a, prefix);
    }
  }

  // ---------------------------------------------------------------- settings that have changed

  /** What the file service strips from the URL of a local file. */
  function ReadPrefix(c: Settings): string {
    TrimOne(c.urlPrefix) + "/"
  }

  /** A prefix that ends in the middle of the written one, or of the encoded key, at a slash. */
  lemma {:induction false} OtherPrefixDecodesElse(base: string, encoded: string, prefix: string, key: string)
    requires Decode(encoded) == Some(key) && prefix != "" && prefix[|prefix| - 1] == '/'
    requires prefix <= base + "/" + encoded && |prefix| != |base| + 1
    ensures Decode((base + "/" + encoded)[|prefix|..]) != Some(key)
  {
    var url := base + "/" + encoded;
    var rest := url[|prefix|..];
    if |prefix| <= |base| {
      assert rest == base[|prefix|..] + "/" + encoded;
      DecodeAfterSlash(base[|prefix|..], encoded);
    } else {
      var m := |prefix| - |base| - 1;
      assert url[|prefix| - 1] == '/' && url[|prefix| - 1] == encoded[m - 1];
      assert encoded == encoded[..m - 1] + "/" + rest;
      DecodeAfterSlash(encoded[..m - 1], rest);
    }
  }

  /** A record written under some settings and read under others: the key is recovered if and only if
      the file is not local, its URL does not start with the prefix read now, or that prefix is the
      one it was written with. */
  lemma {:induction false} StorageKeyRecoveredExactly(written: Settings, read: Settings, storageType: StorageType, key: string)
    ensures var record := Put(written, storageType, key);
            GetStorageKey(read, record) == Some(record.key) <==>
              || !storageType.Local? || !(ReadPrefix(read) <= record.url)
              || ReadPrefix(read) == TrimTrailing(written.urlPrefix) + "/"
  {
    var record, base := Put(written, storageType, key), TrimTrailing(written.urlPrefix);
    var encoded, prefix := EncodeObjectKey(record.key), ReadPrefix(read);
    NormalizedHead(written, key);
    DecodeObjectKey(record.key);
    if storageType.Local? && prefix <= record.url {
      if |prefix| == |base| + 1 {
        assert prefix == record.url[..|prefix|] == base + "/";
        assert record.url[|prefix|..] == encoded;
      } else {
        OtherPrefixDecodesElse(base, encoded, prefix, record.key);
      }
    }
  }

  /** For example a file written under /files/x and read under /files. */
  lemma {:induction false} ShorterPrefixRecoversElse(written: Settings, read: Settings, key: string)
    requires written.urlPrefix == "/files/x" && read.urlPrefix == "/files"
    ensures GetStorageKey(read, Put(written, Local, key)) != Some(Put(written, Local, key).key)
  {
    StorageKeyRecoveredExactly(written, read, Local, key);
    assert ReadPrefix(read) == "/files/" && TrimTrailing(written.urlPrefix) == "/files/x";
    assert Put(written, Local, key).url[..7] == "/files/";
  }
}
