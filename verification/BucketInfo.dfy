/**
 Ownership of a range bucket and its migration: `BucketInfo`
 (include/range_bucket_key_record.h) and the byte form of `RangeBucketRecord`
 (src/range_bucket_key_record.cpp).
 */
module BucketInfo {

  const NO_OWNER: nat := 0xFFFF_FFFF
  const UINT32: nat := 0x1_0000_0000
  const UINT64: nat := 0x1_0000_0000_0000_0000

  datatype Info = Info(owner: nat, version: nat, dirtyOwner: nat, dirtyVersion: nat)

  /** Within the widths of the fields: 32-bit node groups and 64-bit versions. */
  predicate Fits(b: Info)
  {
    b.owner < UINT32 && b.version < UINT64 && b.dirtyOwner < UINT32 && b.dirtyVersion < UINT64
  }

  function Fresh(owner: nat, version: nat): Info
  {
    Info(owner, version, NO_OWNER, 0)
  }

  function WithDirty(b: Info, dirtyOwner: nat, dirtyVersion: nat): Info
  {
    if dirtyVersion > b.version && dirtyVersion > b.dirtyVersion
    then b.(dirtyOwner := dirtyOwner, dirtyVersion := dirtyVersion)
    else b
  }

  /** The dirty half is empty, or newer than the committed one. */
  predicate Orderly(b: Info)
  {
    (b.dirtyVersion == 0 && b.dirtyOwner == NO_OWNER) || b.dirtyVersion > b.version
  }

  class Bucket {
    var info: Info
    var acceptsUploadBatch: bool

    constructor (owner: nat, version: nat)
      ensures info == Fresh(owner, version) && Orderly(info) && !acceptsUploadBatch
    {
      info, acceptsUploadBatch := Fresh(owner, version), false;
    }

    /** `asserted` says whether the assertion holds that no migration is under way. */
    method Set(owner: nat, version: nat) returns (asserted: bool)
      modifies this`info
      ensures info == Next(old(info), SetOwner(owner, version)) && info.version >= old(info.version)
      ensures asserted <==> version <= old(info.version) || old(info.dirtyVersion) == 0
      ensures Orderly(old(info)) ==> (Orderly(info) <==> !Overtakes(old(info), SetOwner(owner, version)))
      ensures Orderly(old(info)) && asserted ==>
                info == if version > old(info.version) then Fresh(owner, version) else old(info)
    {
      asserted := true;
      if version > info.version {
        info := info.(owner := owner, version := version);
        asserted := info.dirtyVersion == 0;
      }
    }

    method SetDirty(dirtyOwner: nat, dirtyVersion: nat)
      modifies this`info
      ensures info == Next(old(info), StartMigration(dirtyOwner, dirtyVersion))
      ensures Orderly(old(info)) ==> Orderly(info)
      ensures dirtyVersion > info.version ==> info.dirtyVersion >= dirtyVersion
    {
      if dirtyVersion > info.version && dirtyVersion > info.dirtyVersion {
        info := info.(dirtyOwner := dirtyOwner, dirtyVersion := dirtyVersion);
      }
    }

    /** Ends a migration in favour of the dirty owner, if there is one. */
    method CommitDirty()
      modifies this
      ensures Orderly(info) && info.version >= old(info.version) && !acceptsUploadBatch
              && info == Next(old(info), Commit)
      ensures info == if old(info.dirtyVersion > info.version) then Fresh(old(info.dirtyOwner), old(info.dirtyVersion))
                      else Fresh(old(info.owner), old(info.version))
    {
      if info.dirtyVersion > info.version {
        info := info.(version := info.dirtyVersion, owner := info.dirtyOwner);
      }
      acceptsUploadBatch := false;
      info := info.(dirtyOwner := NO_OWNER, dirtyVersion := 0);
    }

    method ClearDirty()
      modifies this`info
      ensures Orderly(info) && info == Next(old(info), Abort) && info == Fresh(old(info.owner), old(info.version))
    {
      info := info.(dirtyOwner := NO_OWNER, dirtyVersion := 0);
    }

    /** A copy built through `SetDirty`; it does not accept uploads. */
    method Clone() returns (clone: Bucket)
      ensures fresh(clone) && !clone.acceptsUploadBatch
      ensures clone.info == Copied(info)
      ensures clone.info == info <==> Orderly(info)
    {
      clone := new Bucket(info.owner, info.version);
      clone.SetDirty(info.dirtyOwner, info.dirtyVersion);
      CopiedExactly(info);
    }
  }

  function Copied(b: Info): Info
  {
    WithDirty(Fresh(b.owner, b.version), b.dirtyOwner, b.dirtyVersion)
  }

  /** Rebuilding through `SetDirty` keeps all four fields exactly for orderly buckets. */
  lemma {:induction false} CopiedExactly(b: Info)
    ensures Copied(b) == b <==> Orderly(b)
    ensures Orderly(Copied(b)) && Copied(Copied(b)) == Copied(b)
  {
  }

  // ---------------------------------------------------------------------------
  // Runs
  // ---------------------------------------------------------------------------

  datatype Event =
    | SetOwner(owner: nat, version: nat)
    | StartMigration(owner: nat, version: nat)
    | Commit
    | Abort

  /** The calls as written; whether an assertion stops them is `Asserted`. */
  function Next(b: Info, e: Event): Info
  {
    match e
    case SetOwner(o, v) => if v > b.version then b.(owner := o, version := v) else b
    case StartMigration(o, v) => WithDirty(b, o, v)
    case Commit =>
      var c := if b.dirtyVersion > b.version then b.(version := b.dirtyVersion, owner := b.dirtyOwner) else b;
      c.(dirtyOwner := NO_OWNER, dirtyVersion := 0)
    case Abort => b.(dirtyOwner := NO_OWNER, dirtyVersion := 0)
  }

  function Run(b: Info, es: seq<Event>): Info
  {
    if es == [] then b else Next(Run(b, es[..|es| - 1]), es[|es| - 1])
  }

  /** An owner is set during a migration, with a version that is not older than the migration's. */
  predicate Overtakes(b: Info, e: Event)
  {
    e.SetOwner? && e.version > b.version && b.dirtyVersion != 0 && e.version >= b.dirtyVersion
  }

  /** The assertion that an owner is not set during a migration. */
  predicate Asserted(b: Info, e: Event)
  {
    e.SetOwner? && e.version > b.version ==> b.dirtyVersion == 0
  }

  predicate NeverOvertakes(b: Info, es: seq<Event>)
  {
    es != [] ==> NeverOvertakes(b, es[..|es| - 1]) && !Overtakes(Run(b, es[..|es| - 1]), es[|es| - 1])
  }

  predicate AllAsserted(b: Info, es: seq<Event>)
  {
    es != [] ==> AllAsserted(b, es[..|es| - 1]) && Asserted(Run(b, es[..|es| - 1]), es[|es| - 1])
  }

  predicate AlwaysOrderly(b: Info, es: seq<Event>)
  {
    Orderly(Run(b, es)) && (es != [] ==> AlwaysOrderly(b, es[..|es| - 1]))
  }

  /**
   A run keeps the bucket orderly all the time, so that clones and byte copies are exact,
   if and only if no owner overtakes a migration; the assertion rules that out. Versions
   never fall in any run.
   */
  lemma {:induction false} RunStaysOrderly(b: Info, es: seq<Event>)
    requires Orderly(b)
    ensures AlwaysOrderly(b, es) <==> NeverOvertakes(b, es)
    ensures AllAsserted(b, es) ==> NeverOvertakes(b, es)
    ensures AlwaysOrderly(b, es) ==> Copied(Run(b, es)) == Run(b, es)
    ensures b.version <= Run(b, es).version
  {
    if es != [] {
      RunStaysOrderly(b, es[..|es| - 1]);
    }
    CopiedExactly(Run(b, es));
  }

  // ---------------------------------------------------------------------------
  // Bytes
  // ---------------------------------------------------------------------------

  type Bytes = seq<nat>

  /** The little-endian bytes of a number, `n` of them. */
  function Encode(x: nat, n: nat): (s: Bytes)
    ensures |s| == n && forall i :: 0 <= i < n ==> s[i] < 256
  {
    if n == 0 then [] else [x % 256] + Encode(x / 256, n - 1)
  }

  function Decode(s: Bytes): nat
  {
    if s == [] then 0 else s[0] + 256 * Decode(s[1..])
  }

  function Power(n: nat): nat
  {
    if n == 0 then 1 else 256 * Power(n - 1)
  }

  lemma {:induction false} DecodeEncode(x: nat, n: nat)
    requires x < Power(n)
    ensures Decode(Encode(x, n)) == x
  {
    if n > 0 {
      assert Power(n) == 256 * Power(n - 1);
      DecodeEncode(x / 256, n - 1);
      assert Encode(x, n)[1..] == Encode(x / 256, n - 1);
    }
  }

  /** Appends owner, version, dirty owner and dirty version. */
  method Serialize(b: Info, str: Bytes) returns (out: Bytes)
    ensures out == str + Serialized(b) && |out| == |str| + 24
  {
    out := str + Encode(b.owner, 4);
    out := out + Encode(b.version, 8);
    out := out + Encode(b.dirtyOwner, 4);
    out := out + Encode(b.dirtyVersion, 8);
  }

  function Serialized(b: Info): Bytes
  {
    Encode(b.owner, 4) + Encode(b.version, 8) + Encode(b.dirtyOwner, 4) + Encode(b.dirtyVersion, 8)
  }

  /** Reads the four fields, advancing the offset, and rebuilds the bucket. */
  method Deserialize(buf: Bytes, offset: nat) returns (b: Info, after: nat)
    requires offset + 24 <= |buf|
    ensures after == offset + 24
    ensures b == Copied(Parsed(buf[offset..offset + 24]))
  {
    after := offset;
    var owner := Decode(buf[after..after + 4]);
    after := after + 4;
    var version := Decode(buf[after..after + 8]);
    after := after + 8;
    var dirtyOwner := Decode(buf[after..after + 4]);
    after := after + 4;
    var dirtyVersion := Decode(buf[after..after + 8]);
    after := after + 8;
    b := WithDirty(Fresh(owner, version), dirtyOwner, dirtyVersion);
    var s := buf[offset..offset + 24];
    assert s[..4] == buf[offset..offset + 4] && s[4..12] == buf[offset + 4..offset + 12];
    assert s[12..16] == buf[offset + 12..offset + 16] && s[16..24] == buf[offset + 16..offset + 24];
  }

  function Parsed(s: Bytes): Info
    requires |s| == 24
  {
    Info(Decode(s[..4]), Decode(s[4..12]), Decode(s[12..16]), Decode(s[16..24]))
  }

  /** Reading back what was written anywhere in a buffer gives the bucket, exactly if it is orderly. */
  lemma {:induction false} RoundTrip(b: Info, before: Bytes, after: Bytes)
    requires Fits(b)
    ensures var buf := before + Serialized(b) + after;
            |before| + 24 <= |buf| && Copied(Parsed(buf[|before|..|before| + 24])) == Copied(b)
    ensures var buf := before + Serialized(b) + after;
            Copied(Parsed(buf[|before|..|before| + 24])) == b <==> Orderly(b)
  {
    var s := Serialized(b);
    assert (before + s + after)[|before|..|before| + 24] == s;
    Widths();
    assert s[..4] == Encode(b.owner, 4) && s[4..12] == Encode(b.version, 8);
    assert s[12..16] == Encode(b.dirtyOwner, 4) && s[16..24] == Encode(b.dirtyVersion, 8);
    DecodeEncode(b.owner, 4);
    DecodeEncode(b.version, 8);
    DecodeEncode(b.dirtyOwner, 4);
    DecodeEncode(b.dirtyVersion, 8);
    CopiedExactly(b);
  }

  lemma {:induction false} Widths()
    ensures Power(4) == UINT32 && Power(8) == UINT64
  {
  }
}
