/** How object names are spelled in the Swift container. The rest of the model names objects by
    location and number; here it is shown that the spelled-out container behaves the same. */
module ObjectNames {
  import opened Storage

  function TrimLeft(s: string): string {
    if s != "" && s[0] == '/' then TrimLeft(s[1..]) else s
  }

  function TrimRight(s: string): string {
    if s != "" && s[|s| - 1] == '/' then TrimRight(s[..|s| - 1]) else s
  }

  function PrependPrefix(prefix: string, fullPath: string): string {
    var trimmed := TrimRight(TrimLeft(fullPath));
    if prefix == "" then trimmed else prefix + "/" + trimmed
  }

  predicate IsDigit(c: char) { '0' <= c <= '9' }

  function DigitChar(d: nat): (c: char)
    requires d < 10
    ensures IsDigit(c) && DigitValue(c) == d
  {
    '0' + d as char
  }

  function DigitValue(c: char): (d: nat)
    requires IsDigit(c)
  {
    c as int - '0' as int
  }

  function Decimal(n: nat): (s: string)
    ensures s != "" && forall c | c in s :: IsDigit(c)
  {
    if n < 10 then [DigitChar(n)] else Decimal(n / 10) + [DigitChar(n % 10)]
  }

  /** Left-padded with zeros to the given width, as by the format verb %0<width>d. */
  function Padded(s: string, width: nat): (r: string)
    ensures |r| >= |s| && |r| >= width
    ensures (forall c | c in s :: IsDigit(c)) ==> forall c | c in r :: IsDigit(c)
    decreases width - |s|
  {
    if |s| >= width then s else Padded("0" + s, width)
  }

  function Tail(n: ObjectName): string {
    match n
    case ContentName(_) => "content"
    case SegmentName(_, number) => Padded(Decimal(number), 16)
  }

  /** The name of an object: fileInfo.ObjectPath and plusSegment.ObjectPath under the prefix. */
  function Spelled(prefix: string, n: ObjectName): string {
    match n
    case ContentName(location) => PrependPrefix(prefix, location + "/content")
    case SegmentName(location, _) => PrependPrefix(prefix, location) + "/" + Tail(n)
  }

  function LocationPrefix(prefix: string, location: Location): string {
    PrependPrefix(prefix, location) + "/"
  }

  /** What plusRandLocation returns: 8 random bytes in hexadecimal. */
  predicate IsHexLocation(l: Location) {
    |l| == 16 && forall c | c in l :: IsDigit(c) || 'a' <= c <= 'f'
  }

  /* ---------- numbers ---------- */

  function Value(s: string): nat
    requires forall c | c in s :: IsDigit(c)
  {
    if s == "" then 0
    else
      assert s[|s| - 1] in s;
      10 * Value(s[..|s| - 1]) + DigitValue(s[|s| - 1])
  }

  lemma {:induction false} DecimalValue(n: nat)
    ensures Value(Decimal(n)) == n
  {
    if n >= 10 {
      DecimalValue(n / 10);
      assert Decimal(n)[..|Decimal(n)| - 1] == Decimal(n / 10);
    } else {
      assert Decimal(n)[..0] == "";
    }
  }

  lemma {:induction false} LeadingZero(s: string)
    requires forall c | c in s :: IsDigit(c)
    ensures Value("0" + s) == Value(s)
  {
    if s == "" {
      assert ("0" + s)[..0] == "";
    } else {
      assert ("0" + s)[..|s|] == "0" + s[..|s| - 1];
      LeadingZero(s[..|s| - 1]);
    }
  }

  lemma {:induction false} PaddedValue(s: string, width: nat)
    requires forall c | c in s :: IsDigit(c)
    ensures Value(Padded(s, width)) == Value(s)
    decreases width - |s|
  {
    if |s| < width {
      PaddedValue("0" + s, width);
      LeadingZero(s);
    }
  }

  /* ---------- names ---------- */

  lemma SpelledShape(prefix: string, n: ObjectName)
    requires IsHexLocation(n.location)
    ensures Spelled(prefix, n) == LocationPrefix(prefix, n.location) + Tail(n)
    ensures LocationPrefix(prefix, n.location) == (if prefix == "" then "" else prefix + "/") + n.location + "/"
  {
    var l := n.location;
    assert l[0] in l && l[|l| - 1] in l;
    assert TrimRight(TrimLeft(l)) == l;
    var c := l + "/content";
    assert c[0] == l[0] && c[|c| - 1] == 't';
    assert TrimRight(TrimLeft(c)) == c;
  }

  function Pow10(k: nat): nat {
    if k == 0 then 1 else 10 * Pow10(k - 1)
  }

  lemma {:induction false} DecimalLength(n: nat, k: nat)
    requires 0 < k && n < Pow10(k)
    ensures |Decimal(n)| <= k
    decreases k
  {
    if n >= 10 {
      DecimalLength(n / 10, k - 1);
    }
  }

  lemma {:induction false} PaddedLength(s: string, width: nat)
    requires |s| <= width
    ensures |Padded(s, width)| == width
    decreases width - |s|
  {
    if |s| < width { PaddedLength("0" + s, width); }
  }

  /** Names spelled out: the prefix if there is one, the location, and then the word content or the number
      of the segment in sixteen digits, as long as that is enough. */
  lemma NamesSpelledOut(prefix: string, l: Location, number: nat)
    requires IsHexLocation(l)
    ensures
      var head := (if prefix == "" then "" else prefix + "/") + l + "/";
      var name := Spelled(prefix, SegmentName(l, number));
      var digits := name[|head|..];
      && Spelled(prefix, ContentName(l)) == head + "content"
      && head <= name && (forall c | c in digits :: IsDigit(c)) && Value(digits) == number
      && |digits| >= 16 && (number < 10_000_000_000_000_000 ==> |digits| == 16)
  {
    SpelledShape(prefix, ContentName(l));
    SpelledShape(prefix, SegmentName(l, number));
    hide Spelled, LocationPrefix, IsHexLocation;
    var head := (if prefix == "" then "" else prefix + "/") + l + "/";
    var digits := Padded(Decimal(number), 16);
    assert Spelled(prefix, SegmentName(l, number)) == head + digits;
    assert (head + digits)[|head|..] == digits;
    DecimalValue(number);
    PaddedValue(Decimal(number), 16);
    if number < 10_000_000_000_000_000 {
      assert Pow10(4) == 10_000 && Pow10(8) == 100_000_000 && Pow10(12) == 1_000_000_000_000;
      DecimalLength(number, 16);
      PaddedLength(Decimal(number), 16);
    }
  }

  /** Deleting by the prefix of a location hits an object iff it belongs to that location. */
  lemma PrefixExact(prefix: string, n: ObjectName, l: Location)
    requires IsHexLocation(n.location) && IsHexLocation(l)
    ensures LocationPrefix(prefix, l) <= Spelled(prefix, n) <==> n.location == l
  {
    assert |n.location| == 16 && |l| == 16;
    hide Spelled, LocationPrefix, Tail, IsHexLocation;
    SpelledShape(prefix, n);
    SpelledShape(prefix, ContentName(l));
    SamePrefix(if prefix == "" then "" else prefix + "/", n.location, l, Tail(n));
  }

  lemma SamePrefix(head: string, a: string, b: string, tail: string)
    requires |a| == |b|
    ensures head + b + "/" <= head + a + "/" + tail <==> a == b
  {
    var x, y := head + a + "/" + tail, head + b + "/";
    if y <= x {
      assert x[|head|..|head| + |a|] == a;
      assert y[|head|..|head| + |a|] == b;
    }
  }

  lemma TailInjective(a: ObjectName, b: ObjectName)
    requires a.location == b.location && Tail(a) == Tail(b)
    ensures a == b
  {
    if a.SegmentName? && b.SegmentName? {
      DecimalValue(a.number);
      DecimalValue(b.number);
      PaddedValue(Decimal(a.number), 16);
      PaddedValue(Decimal(b.number), 16);
    }
  }

  /** Different objects have different names. */
  lemma SpelledInjective(prefix: string, a: ObjectName, b: ObjectName)
    requires IsHexLocation(a.location) && IsHexLocation(b.location)
    requires Spelled(prefix, a) == Spelled(prefix, b)
    ensures a == b
  {
    SpelledShape(prefix, a);
    SpelledShape(prefix, b);
    PrefixExact(prefix, a, b.location);
    var k := |LocationPrefix(prefix, a.location)|;
    assert Spelled(prefix, a)[k..] == Tail(a) && Spelled(prefix, b)[k..] == Tail(b);
    TailInjective(a, b);
  }

  /* ---------- the container under its spelled-out names ---------- */

  datatype SpelledObject = SpelledBlob(data: Bytes) | SpelledManifest(segments: seq<(string, nat)>)

  function SpelledSegment(prefix: string, s: Segment): (string, nat) {
    (Spelled(prefix, SegmentName(s.location, s.number)), s.size)
  }

  function SpelledValue(prefix: string, o: Object): SpelledObject {
    match o
    case Blob(data) => SpelledBlob(data)
    case Manifest(segments) =>
      SpelledManifest(seq(|segments|, i requires 0 <= i < |segments| => SpelledSegment(prefix, segments[i])))
  }

  predicate HexBucket(objects: Bucket) {
    forall n | n in objects :: IsHexLocation(n.location)
  }

  /** The container holds exactly the given objects, each under its own name. */
  ghost predicate Spells(container: map<string, SpelledObject>, prefix: string, objects: Bucket) {
    && (forall n | n in objects :: Spelled(prefix, n) in container
         && container[Spelled(prefix, n)] == SpelledValue(prefix, objects[n]))
    && (forall name | name in container :: exists n | n in objects :: Spelled(prefix, n) == name)
  }

  lemma LookupSpelled(container: map<string, SpelledObject>, prefix: string, objects: Bucket, n: ObjectName)
    requires HexBucket(objects) && IsHexLocation(n.location) && Spells(container, prefix, objects)
    ensures Spelled(prefix, n) in container <==> n in objects
    ensures n in objects ==> container[Spelled(prefix, n)] == SpelledValue(prefix, objects[n])
  {
    if Spelled(prefix, n) in container {
      var m :| m in objects && Spelled(prefix, m) == Spelled(prefix, n);
      SpelledInjective(prefix, m, n);
    }
  }

  lemma UploadSpelled(container: map<string, SpelledObject>, prefix: string, objects: Bucket, n: ObjectName, o: Object)
    requires HexBucket(objects) && IsHexLocation(n.location) && Spells(container, prefix, objects)
    ensures Spells(container[Spelled(prefix, n) := SpelledValue(prefix, o)], prefix, objects[n := o])
  {
    hide Spelled, SpelledValue, IsHexLocation;
    var after := objects[n := o];
    var container' := container[Spelled(prefix, n) := SpelledValue(prefix, o)];
    forall m | m in after
      ensures Spelled(prefix, m) in container' && container'[Spelled(prefix, m)] == SpelledValue(prefix, after[m])
    {
      if m != n && Spelled(prefix, m) == Spelled(prefix, n) { SpelledInjective(prefix, m, n); }
    }
    forall name | name in container' ensures exists m | m in after :: Spelled(prefix, m) == name {
      if name in container {
        var m :| m in objects && Spelled(prefix, m) == name;
        assert m in after;
      } else {
        assert n in after;
      }
    }
  }

  /** Listing the container by prefix and deleting what is found drops exactly one location. */
  lemma DeleteAllSpelled(container: map<string, SpelledObject>, prefix: string, objects: Bucket, l: Location)
    requires HexBucket(objects) && IsHexLocation(l) && Spells(container, prefix, objects)
    ensures Spells(map name | name in container && !(LocationPrefix(prefix, l) <= name) :: container[name],
                   prefix, DropLocations(objects, {l}))
  {
    hide Spelled, SpelledValue, IsHexLocation, LocationPrefix;
    var container' := map name | name in container && !(LocationPrefix(prefix, l) <= name) :: container[name];
    var after := DropLocations(objects, {l});
    forall n | n in objects ensures LocationPrefix(prefix, l) <= Spelled(prefix, n) <==> n.location == l {
      PrefixExact(prefix, n, l);
    }
    forall name | name in container' ensures exists n | n in after :: Spelled(prefix, n) == name {
      var n :| n in objects && Spelled(prefix, n) == name;
      assert n in after;
    }
  }
}
