/** Printing and parsing of bundle and blob names (types/key.go) and the renaming of a re-uploaded bundle. */
module Names {
  import opened Types
  import opened Text

  /** Outcome of parsing a name: an index out of range panics, a number that does not parse is an error. */
  datatype Parsed = Panic | Malformed | Pair(first: nat, second: nat)

  /******* Names as the code prints them *******/

  function GetBlobName(slot: nat, index: int): string {
    "blob_h" + Decimal(slot) + "_i" + Signed(index)
  }

  function GetBundleName(lo: nat, hi: nat): string {
    "blobs_s" + Decimal(lo) + "_e" + Decimal(hi)
  }

  /** The name a bundle identity stands for. */
  function BundleName(b: BundleId): string {
    match b.stamp
    case None => GetBundleName(b.lo, b.hi)
    case Some(ts) => GetBundleName(b.lo, b.hi) + "_calibrated_" + Signed(ts)
  }

  /** Directory name used while a bundle is rebuilt for verification. */
  function ScratchName(b: BundleId): string {
    BundleName(b) + "_verify"
  }

  function ParseFields(name: string): Parsed {
    var parts := Split(name, '_');
    if |parts| < 2 || parts[1] == "" then Panic else
      match StringToUint64(parts[1][1..])
      case None => Malformed
      case Some(first) =>
        if |parts| < 3 || parts[2] == "" then Panic else
          match StringToUint64(parts[2][1..])
          case None => Malformed
          case Some(second) => Pair(first, second)
  }

  function ParseBlobName(name: string): Parsed {
    ParseFields(name)
  }

  function ParseBundleName(name: string): Parsed {
    ParseFields(name)
  }

  /** How a re-upload names the replacement bundle; None is an index out of range. */
  function Calibrated(name: string, now: int): Option<string> {
    var parts := Split(name, '_');
    if |parts| < 3 then None else
      Some(parts[0] + "_" + parts[1] + "_" + parts[2] + "_calibrated_" + Signed(now))
  }

  /******* The fields of printed names *******/

  function BundleParts(b: BundleId): seq<string> {
    ["blobs", "s" + Decimal(b.lo), "e" + Decimal(b.hi)] +
    if b.stamp.None? then [] else ["calibrated", Signed(b.stamp.value)]
  }

  function BlobParts(slot: nat, index: int): seq<string> {
    ["blob", "h" + Decimal(slot), "i" + Signed(index)]
  }

  lemma {:induction false} NoUnderscore(i: int)
    ensures '_' !in Signed(i)
  {
    FormatShape(if i < 0 then -i else i, 10);
  }

  lemma {:induction false} JoinThree(a: string, b: string, c: string)
    ensures Join([a, b, c], '_') == a + "_" + b + "_" + c
  {
    assert [a, b, c][1..] == [b, c];
    assert [b, c][1..] == [c];
    assert Join([b, c], '_') == b + "_" + c;
    assert a + "_" + (b + "_" + c) == a + "_" + b + "_" + c;
  }

  lemma {:induction false} JoinFive(a: string, b: string, c: string, d: string, e: string)
    ensures Join([a, b, c, d, e], '_') == a + "_" + b + "_" + c + "_" + d + "_" + e
  {
    assert [a, b, c, d, e][1..] == [b, c, d, e];
    assert [b, c, d, e][1..] == [c, d, e];
    JoinThree(c, d, e);
    assert a + "_" + (b + "_" + (c + "_" + d + "_" + e)) == a + "_" + b + "_" + c + "_" + d + "_" + e;
  }

  lemma {:induction false} BundleNameSplits(b: BundleId)
    ensures Split(BundleName(b), '_') == BundleParts(b)
  {
    NoUnderscore(b.lo);
    NoUnderscore(b.hi);
    var lo, hi := "s" + Decimal(b.lo), "e" + Decimal(b.hi);
    if b.stamp.Some? {
      NoUnderscore(b.stamp.value);
      JoinFive("blobs", lo, hi, "calibrated", Signed(b.stamp.value));
    } else {
      JoinThree("blobs", lo, hi);
      assert BundleParts(b) == ["blobs", lo, hi];
    }
    assert GetBundleName(b.lo, b.hi) == "blobs" + "_" + lo + "_" + hi;
    assert BundleName(b) == Join(BundleParts(b), '_') by {
      if b.stamp.Some? {
        var ts := Signed(b.stamp.value);
        assert "_calibrated_" == "_" + "calibrated" + "_";
        assert BundleParts(b) == ["blobs", lo, hi, "calibrated", ts];
      }
    }
    SplitUndoesJoin(BundleParts(b), '_');
  }

  lemma {:induction false} ScratchNameSplits(b: BundleId)
    ensures Split(ScratchName(b), '_') == BundleParts(b) + ["verify"]
  {
    BundleNameSplits(b);
    JoinAppends(BundleParts(b), "verify");
    NoUnderscore(b.lo);
    NoUnderscore(b.hi);
    if b.stamp.Some? { NoUnderscore(b.stamp.value); }
    SplitJoins(BundleName(b), '_');
    assert ScratchName(b) == BundleName(b) + "_" + "verify";
    SplitUndoesJoin(BundleParts(b) + ["verify"], '_');
  }

  lemma {:induction false} JoinAppends(parts: seq<string>, last: string)
    requires parts != []
    ensures Join(parts + [last], '_') == Join(parts, '_') + "_" + last
    decreases |parts|
  {
    if |parts| > 1 {
      assert (parts + [last])[1..] == parts[1..] + [last];
      JoinAppends(parts[1..], last);
    }
  }

  lemma {:induction false} SplitJoins(s: string, sep: char)
    ensures Join(Split(s, sep), sep) == s
    decreases |s|
  {
    if s != "" {
      SplitJoins(s[1..], sep);
      var rest := Split(s[1..], sep);
      var whole := Split(s, sep);
      if s[0] == sep {
        assert whole[1..] == rest;
      } else {
        assert whole[1..] == rest[1..];
      }
      assert [s[0]] + s[1..] == s;
    }
  }

  lemma {:induction false} BlobNameSplits(slot: nat, index: int)
    ensures Split(GetBlobName(slot, index), '_') == BlobParts(slot, index)
  {
    NoUnderscore(slot);
    NoUnderscore(index);
    JoinThree("blob", "h" + Decimal(slot), "i" + Signed(index));
    assert GetBlobName(slot, index) == "blob" + "_" + ("h" + Decimal(slot)) + "_" + ("i" + Signed(index));
    SplitUndoesJoin(BlobParts(slot, index), '_');
  }

  /******* Round trips *******/

  /** For any name, by its fields: the second and third are read without their first character and the others not at all; a field
      that is not there or empty panics, unless a number before it fails. */
  lemma {:induction false} ParsesExactly(parts: seq<string>, first: nat, second: nat)
    requires parts != [] && forall i :: 0 <= i < |parts| ==> '_' !in parts[i]
    ensures var r := ParseFields(Join(parts, '_'));
      && (r == Pair(first, second) <==>
            && |parts| >= 3 && parts[1] != "" && parts[2] != ""
            && StringToUint64(parts[1][1..]) == Some(first) && StringToUint64(parts[2][1..]) == Some(second))
      && (r.Panic? <==>
            || |parts| < 2 || parts[1] == ""
            || (StringToUint64(parts[1][1..]).Some? && (|parts| < 3 || parts[2] == "")))
  {
    hide StringToUint64;
    SplitUndoesJoin(parts, '_');
  }

  /** Parsing undoes printing, for plain and calibrated bundle names, and for no number outside 64 bits. */
  lemma {:induction false} BundleNameRoundTrip(b: BundleId)
    ensures b.lo < UINT64_LIMIT && b.hi < UINT64_LIMIT ==> ParseBundleName(BundleName(b)) == Pair(b.lo, b.hi)
    ensures b.lo >= UINT64_LIMIT || b.hi >= UINT64_LIMIT ==> ParseBundleName(BundleName(b)) == Malformed
  {
    BundleNameSplits(b);
    Uint64RoundTrip(b.lo);
    Uint64RoundTrip(b.hi);
    assert BundleParts(b)[1][1..] == Decimal(b.lo);
    assert BundleParts(b)[2][1..] == Decimal(b.hi);
  }

  lemma {:induction false} BlobNameRoundTrip(slot: nat, index: nat)
    requires slot < UINT64_LIMIT && index < UINT64_LIMIT
    ensures ParseBlobName(GetBlobName(slot, index)) == Pair(slot, index)
  {
    BlobNameSplits(slot, index);
    Uint64RoundTrip(slot);
    Uint64RoundTrip(index);
    assert BlobParts(slot, index)[1][1..] == Decimal(slot);
    assert BlobParts(slot, index)[2][1..] == Decimal(index);
  }

  lemma {:induction false} BundleNameIsInjective(a: BundleId, b: BundleId)
    requires BundleName(a) == BundleName(b)
    ensures a == b
  {
    BundleNameSplits(a);
    BundleNameSplits(b);
    SamePartsSameBundle(a, b);
  }

  lemma {:induction false} SamePartsSameBundle(a: BundleId, b: BundleId)
    requires BundleParts(a) == BundleParts(b)
    ensures a == b
  {
    assert BundleParts(a)[1][1..] == Decimal(a.lo) && BundleParts(b)[1][1..] == Decimal(b.lo);
    assert BundleParts(a)[2][1..] == Decimal(a.hi) && BundleParts(b)[2][1..] == Decimal(b.hi);
    FormatIsInjective(a.lo, b.lo, 10);
    FormatIsInjective(a.hi, b.hi, 10);
    assert |BundleParts(a)| == |BundleParts(b)|;
    if a.stamp.Some? {
      assert BundleParts(a)[4] == Signed(a.stamp.value) && BundleParts(b)[4] == Signed(b.stamp.value);
      SignedIsInjective(a.stamp.value, b.stamp.value);
    }
  }

  /** Directories never collide: a rebuilt bundle's directory is no bundle's upload directory and no other's rebuild. */
  lemma {:induction false} ScratchNamesAreApart(a: BundleId, b: BundleId)
    ensures ScratchName(a) != BundleName(b)
    ensures ScratchName(a) == ScratchName(b) ==> a == b
  {
    ScratchNameSplits(a);
    ScratchNameSplits(b);
    BundleNameSplits(b);
    var pa, pb := BundleParts(a), BundleParts(b);
    assert |pa + ["verify"]| != |pb|;
    if ScratchName(a) == ScratchName(b) {
      assert pa + ["verify"] == pb + ["verify"];
      assert pa == (pa + ["verify"])[..|pa|] == (pb + ["verify"])[..|pb|] == pb;
      SamePartsSameBundle(a, b);
    }
  }

  lemma {:induction false} BlobNameIsInjective(slot: nat, index: int, slot': nat, index': int)
    requires GetBlobName(slot, index) == GetBlobName(slot', index')
    ensures slot == slot' && index == index'
  {
    BlobNameSplits(slot, index);
    BlobNameSplits(slot', index');
    var p, q := BlobParts(slot, index), BlobParts(slot', index');
    assert p[1][1..] == Decimal(slot) && q[1][1..] == Decimal(slot');
    assert p[2][1..] == Signed(index) && q[2][1..] == Signed(index');
    FormatIsInjective(slot, slot', 10);
    SignedIsInjective(index, index');
  }

  /** Renaming for a re-upload keeps the range and replaces the stamp, whatever was re-uploaded before. */
  lemma {:induction false} CalibratedName(b: BundleId, now: int)
    ensures Calibrated(BundleName(b), now) == Some(BundleName(b.(stamp := Some(now))))
  {
    BundleNameSplits(b);
    var parts := BundleParts(b);
    assert parts[0] + "_" + parts[1] + "_" + parts[2] == GetBundleName(b.lo, b.hi);
  }

  /** Applying the renaming once per element of `times`. */
  function CalibratedRepeatedly(name: string, times: seq<int>): Option<string>
    decreases |times|
  {
    if times == [] then Some(name) else
      match Calibrated(name, times[0])
      case None => None
      case Some(next) => CalibratedRepeatedly(next, times[1..])
  }

  /** Any number of re-uploads leaves the parsed range unchanged. */
  lemma {:induction false} RenamingKeepsRange(b: BundleId, times: seq<int>)
    ensures var name := CalibratedRepeatedly(BundleName(b), times);
      name.Some? && ParseBundleName(name.value) == ParseBundleName(BundleName(b))
    decreases |times|
  {
    if times != [] {
      CalibratedName(b, times[0]);
      var next := b.(stamp := Some(times[0]));
      RenamingKeepsRange(next, times[1..]);
      BundleNameRoundTrip(b);
      BundleNameRoundTrip(next);
    }
  }
}
