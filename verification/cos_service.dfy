/** Object storage for uploaded images: the object key and file name given to an upload, the
    public URL of a stored object and the key read back from such a URL, the cached storage
    client, and the fall-back to an inline data URL whenever storage is not usable. The storage
    SDK and the file reader are inputs: whether the SDK is present, whether its constructor
    throws, whether an upload is accepted, and what reading the file gives. */
module CosService {
  import opened Wrappers
  import opened Strings
  import opened Types

  const Domain := ".myqcloud.com/"
  const KeyRoot := "matrix_studio/"
  const SdkMissing := "腾讯云 SDK 未加载，请检查网络或 index.html"
  const NotConfigured := "COS 未配置"
  const InitFailed := "COS Init Failed"
  const ReadFailed := "图片读取失败"

  // ---------------------------------------------------------------- names and keys

  /** `name.split('.').pop() || 'tmp'`: the text after the last '.', the whole name when there
      is no '.', and "tmp" when that text is empty. */
  function Extension(name: string): (ext: string)
    ensures ext != [] && '.' !in ext
    ensures var tail := name[LastIndexOfChar(name, '.') + 1..];
            ext == if tail == [] then "tmp" else tail
  {
    var parts := Split(name, ".");
    SplitLast(name, '.');
    NoCharAfterLast(name, '.');
    var last := parts[|parts| - 1];
    var ext := if last == [] then "tmp" else last;
    assert '.' !in ext by {
      if last != [] {
        forall k | 0 <= k < |last| ensures last[k] != '.' {
          assert last[k] == name[LastIndexOfChar(name, '.') + 1 + k];
        }
      }
    }
    ext
  }

  /** A name without a '.' is its own extension. */
  lemma ExtensionOfPlainName(name: string)
    requires '.' !in name && name != []
    ensures Extension(name) == name
  {
    assert LastIndexOfChar(name, '.') == -1;
    assert name[0..] == name;
  }

  /** `${timestamp}_${random}.${ext}`. */
  function StampedName(timestamp: nat, random: string, ext: string): (r: string)
    ensures EndsWith(r, "." + ext)
    ensures StartsWith(r, NatToString(timestamp) + "_" + random + ".")
  {
    var head := NatToString(timestamp) + "_" + random + ".";
    var r := head + ext;
    assert r[|r| - |"." + ext|..] == "." + ext;
    assert r[..|head|] == head;
    r
  }

  /** `generateSafeFilename`: the clock reading, '_', the random text, '.', the extension of the
      original name. The random text is `Math.random().toString(36).substring(2, 10)` and
      arrives as a parameter, as does the clock reading. */
  function SafeFilename(name: string, timestamp: nat, random: string): (r: string)
    ensures EndsWith(r, "." + Extension(name))
    ensures StartsWith(r, NatToString(timestamp) + "_" + random + ".")
  {
    StampedName(timestamp, random, Extension(name))
  }

  /** The object key of an upload. */
  function UploadKey(name: string, timestamp: nat, random: string): (key: string)
    ensures StartsWith(key, KeyRoot)
  {
    KeyRoot + SafeFilename(name, timestamp, random)
  }

  /** The public URL of a stored object. */
  function ObjectUrl(bucket: string, region: string, key: string): string {
    "https://" + bucket + ".cos." + region + Domain + key
  }

  /** `getKeyFromUrl`: for a storage URL the text between the first and the second occurrence
      of the domain (or to the end), otherwise the URL itself; "" for "". */
  function GetKeyFromUrl(url: string): (key: string)
    ensures url == [] ==> key == []
    ensures !Contains(url, Domain) ==> key == url
    ensures Contains(url, Domain) ==>
              var rest := url[IndexOf(url, Domain) + |Domain|..];
              key == if Contains(rest, Domain) then rest[..IndexOf(rest, Domain)] else rest
  {
    if url == [] then []
    else if Contains(url, Domain) then
      SplitFirst(url, Domain);
      SplitFirst(url[IndexOf(url, Domain) + |Domain|..], Domain);
      Split(url, Domain)[1]
    else url
  }

  /** A key read back from a storage URL never holds the domain. */
  lemma KeyHasNoDomain(url: string)
    requires Contains(url, Domain)
    ensures !Contains(GetKeyFromUrl(url), Domain)
  {
    var rest := url[IndexOf(url, Domain) + |Domain|..];
    if Contains(rest, Domain) {
      var key := rest[..IndexOf(rest, Domain)];
      if Contains(key, Domain) {
        var j := IndexOf(key, Domain);
        assert rest[j..j + |Domain|] == key[j..j + |Domain|];
        assert OccursAt(rest, Domain, j);
        assert false;
      }
    }
  }

  /** In a URL whose bucket and region hold no '/', the first occurrence of the domain is the
      one after the region. */
  lemma DomainAfterRegion(bucket: string, region: string, key: string)
    requires '/' !in bucket && '/' !in region
    ensures IndexOf(ObjectUrl(bucket, region, key), Domain) == |"https://" + bucket + ".cos." + region|
  {
    var host := "https://" + bucket + ".cos." + region;
    var s := ObjectUrl(bucket, region, key);
    assert s == host + Domain + key;
    assert s[|host|..|host| + |Domain|] == Domain;
    assert OccursAt(s, Domain, |host|);
    assert forall i :: 8 <= i < |host| ==> host[i] != '/' by {
      forall i | 8 <= i < |host| ensures host[i] != '/' {
        if i < 8 + |bucket| {
          assert host[i] == bucket[i - 8];
        } else if i >= 8 + |bucket| + 5 {
          assert host[i] == region[i - 8 - |bucket| - 5];
        }
      }
    }
    forall k | 0 <= k < |host| ensures !OccursAt(s, Domain, k) {
      if OccursAt(s, Domain, k) {
        CharOfOccurrence(s, Domain, k, |Domain| - 1);
        assert false;
      }
    }
  }

  /** Round trip: the key read back from the URL of a stored object is the object's key,
      provided the bucket and region hold no '/' and the key does not itself hold the domain. */
  lemma KeyRoundTrip(bucket: string, region: string, key: string)
    requires '/' !in bucket && '/' !in region
    requires !Contains(key, Domain)
    ensures GetKeyFromUrl(ObjectUrl(bucket, region, key)) == key
  {
    var host := "https://" + bucket + ".cos." + region;
    var s := ObjectUrl(bucket, region, key);
    DomainAfterRegion(bucket, region, key);
    assert s == host + Domain + key;
    assert s[|host| + |Domain|..] == key;
  }

  /** A text with a single '.' never holds the two-dot domain. */
  lemma SingleDotHasNoDomain(a: string, ext: string)
    requires '.' !in a && '.' !in ext
    ensures !Contains(a + "." + ext, Domain)
  {
    var s := a + "." + ext;
    if Contains(s, Domain) {
      var p := IndexOf(s, Domain);
      CharOfOccurrence(s, Domain, p, 0);
      CharOfOccurrence(s, Domain, p, 9);
      assert false;
    }
  }

  /** An upload key has exactly one '.', so it never holds the two-dot domain. */
  lemma UploadKeyHasNoDomain(name: string, timestamp: nat, random: string)
    requires '.' !in random
    ensures !Contains(UploadKey(name, timestamp, random), Domain)
  {
    var a := KeyRoot + NatToString(timestamp) + "_" + random;
    DigitsHaveNoDot(timestamp);
    assert UploadKey(name, timestamp, random) == a + "." + Extension(name);
    SingleDotHasNoDomain(a, Extension(name));
  }

  lemma {:induction false} DigitsHaveNoDot(n: nat)
    ensures '.' !in NatToString(n)
  {
    if n >= 10 {
      DigitsHaveNoDot(n / 10);
    }
  }

  /** The URL of an uploaded object reads back to its key. */
  lemma UploadUrlRoundTrip(bucket: string, region: string, name: string, timestamp: nat, random: string)
    requires '/' !in bucket && '/' !in region && '.' !in random
    ensures GetKeyFromUrl(ObjectUrl(bucket, region, UploadKey(name, timestamp, random))) ==
            UploadKey(name, timestamp, random)
  {
    UploadKeyHasNoDomain(name, timestamp, random);
    KeyRoundTrip(bucket, region, UploadKey(name, timestamp, random));
  }

  // ---------------------------------------------------------------- the client

  /** The storage client: the SDK's, or a stub whose every operation reports `message`. */
  datatype Client = Sdk(secretId: string, secretKey: string) | Stub(message: string)

  /** What the stub or the SDK answers to an upload. */
  function UploadAccepted(c: Client, sdkAccepts: bool): bool {
    c.Sdk? && sdkAccepts
  }

  /** The module-level client cache and the operations that use it. */
  class CosClient {
    /** Whether the SDK script is loaded. */
    const sdkLoaded: bool
    /** The cached client; created once, then reused. */
    var instance: Option<Client>

    constructor (sdkLoaded: bool)
      ensures this.sdkLoaded == sdkLoaded && instance.None?
    {
      this.sdkLoaded := sdkLoaded;
      instance := None;
    }

    /** `getCosInstance`: fails when the SDK is missing; otherwise creates the client on first
        use (a stub when a credential is missing or the constructor throws) and reuses it. */
    method GetInstance(cfg: CosSection, constructorThrows: bool) returns (r: Result<Client, string>)
      modifies this
      ensures !sdkLoaded ==> r == Err(SdkMissing) && instance == old(instance)
      ensures sdkLoaded && old(instance).Some? ==> r == Ok(old(instance).value) && instance == old(instance)
      ensures sdkLoaded && old(instance).None? ==>
                instance == Some(NewClient(cfg, constructorThrows)) && r == Ok(instance.value)
    {
      if !sdkLoaded {
        return Err(SdkMissing);
      }
      if instance.None? {
        instance := Some(NewClient(cfg, constructorThrows));
      }
      r := Ok(instance.value);
    }

    /** `uploadToCOS`. Without a bucket or region, without the SDK, or when the client refuses
        the upload, the file is stored inline as its data URL (`reader`); a refused upload whose
        file cannot be read fails with its own message. An accepted upload gives the object's
        URL under the key root. */
    method Upload(cfg: CosSection, name: string, timestamp: nat, random: string, constructorThrows: bool,
                  sdkAccepts: bool, reader: Result<string, string>) returns (r: Result<string, string>)
      modifies this
      ensures cfg.bucket == [] || cfg.region == [] ==> r == reader && instance == old(instance)
      ensures cfg.bucket != [] && cfg.region != [] && !sdkLoaded ==> r == reader && instance == old(instance)
      ensures cfg.bucket != [] && cfg.region != [] && sdkLoaded ==>
                instance == (if old(instance).Some? then old(instance) else Some(NewClient(cfg, constructorThrows))) &&
                r == if UploadAccepted(instance.value, sdkAccepts)
                     then Ok(ObjectUrl(cfg.bucket, cfg.region, UploadKey(name, timestamp, random)))
                     else if reader.Ok? then reader else Err(ReadFailed)
    {
      if cfg.bucket == [] || cfg.region == [] {
        return reader;
      }
      var c := GetInstance(cfg, constructorThrows);
      if c.Err? {
        return reader;
      }
      var key := KeyRoot + SafeFilename(name, timestamp, random);
      if !UploadAccepted(c.value, sdkAccepts) {
        r := if reader.Ok? then reader else Err(ReadFailed);
      } else {
        r := Ok("https://" + cfg.bucket + ".cos." + cfg.region + Domain + key);
      }
    }

    /** `deleteFromCOS`: the delete request sent, if any. Nothing is sent for an empty URL, a
        missing bucket or region, or a missing SDK; whatever the client answers, the operation
        completes without an error. */
    method Delete(cfg: CosSection, fileUrl: string, constructorThrows: bool)
      returns (request: Option<(string, string, string)>)
      modifies this
      ensures fileUrl == [] || cfg.bucket == [] || cfg.region == [] ==> request.None? && instance == old(instance)
      ensures fileUrl != [] && cfg.bucket != [] && cfg.region != [] ==>
                request == (if sdkLoaded then Some((cfg.bucket, cfg.region, GetKeyFromUrl(fileUrl))) else None)
      ensures fileUrl != [] && cfg.bucket != [] && cfg.region != [] ==>
                instance == (if old(instance).Some? || !sdkLoaded then old(instance)
                             else Some(NewClient(cfg, constructorThrows)))
    {
      if fileUrl == [] || cfg.bucket == [] || cfg.region == [] {
        return None;
      }
      var c := GetInstance(cfg, constructorThrows);
      if c.Err? {
        return None;
      }
      request := Some((cfg.bucket, cfg.region, GetKeyFromUrl(fileUrl)));
    }
  }

  /** The client `getCosInstance` creates. */
  function NewClient(cfg: CosSection, constructorThrows: bool): (c: Client)
    ensures cfg.secretId == [] || cfg.secretKey == [] ==> c == Stub(NotConfigured)
    ensures c.Sdk? ==> c == Sdk(cfg.secretId, cfg.secretKey)
  {
    if cfg.secretId != [] && cfg.secretKey != [] then
      if constructorThrows then Stub(InitFailed) else Sdk(cfg.secretId, cfg.secretKey)
    else Stub(NotConfigured)
  }

  /** Without credentials every upload through the client falls back. */
  lemma StubNeverAccepts(cfg: CosSection, constructorThrows: bool, sdkAccepts: bool)
    requires cfg.secretId == [] || cfg.secretKey == [] || constructorThrows
    ensures !UploadAccepted(NewClient(cfg, constructorThrows), sdkAccepts)
  {
  }
}
