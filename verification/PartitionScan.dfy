/** Comparing a bucket with the catalogue partition by partition, and escalating the partitions that differ. */
module PartitionScan {
  import opened Values
  import opened Characters
  import ListObjects

  // ----- Partition identifiers -----

  datatype Partition = Partition(modulus: nat, index: nat)

  const UINT32 := 0x1_0000_0000

  function DigitChar(d: nat): char
    requires d < 10
  {
    '0' + d as char
  }

  function DigitValue(c: char): nat
    requires IsDigit(c)
  {
    c as int - '0' as int
  }

  /** Decimal digits without leading zeros; nothing for zero. */
  function Digits(n: nat): string {
    if n == 0 then "" else Digits(n / 10) + [DigitChar(n % 10)]
  }

  function Zeros(count: nat): (z: string)
    ensures |z| == count
  {
    seq(count, i requires 0 <= i < count => '0')
  }

  /** %0*d. */
  function Padded(n: nat, width: nat): string {
    var digits := if n == 0 then "0" else Digits(n);
    if |digits| < width then Zeros(width - |digits|) + digits else digits
  }

  /** partitionIDWidth: the width of the largest index. */
  function Width(modulus: nat): nat {
    if modulus <= 1 then 1 else |Digits(modulus - 1)|
  }

  function Id(p: Partition): string {
    Padded(p.index, Width(p.modulus)) + "/" + Padded(p.modulus, 1)
  }

  /** The value of a digit string. */
  function Number(s: string): Option<nat> {
    if s == "" then Some(0)
    else if !IsDigit(s[|s| - 1]) then None
    else match Number(s[..|s| - 1]) case None => None case Some(n) => Some(10 * n + DigitValue(s[|s| - 1]))
  }

  /** ParseUint with 32 bits. */
  function ParseUint32(s: string): Option<nat> {
    if s == "" then None
    else match Number(s) case None => None case Some(n) => if n < UINT32 then Some(n) else None
  }

  function Slashes(s: string): nat {
    if s == "" then 0 else (if s[0] == '/' then 1 else 0) + Slashes(s[1..])
  }

  function BeforeSlash(s: string): string {
    if s == "" || s[0] == '/' then "" else [s[0]] + BeforeSlash(s[1..])
  }

  function ParsePartitionId(s: string): Option<Partition> {
    if Slashes(s) != 1 then None
    else
      var left := BeforeSlash(s);
      if |left| >= |s| then None
      else
        match (ParseUint32(left), ParseUint32(s[|left| + 1..]))
        case (Some(index), Some(modulus)) => if modulus == 0 || index >= modulus then None else Some(Partition(modulus, index))
        case _ => None
  }

  predicate AllDigits(s: string) {
    forall i :: 0 <= i < |s| ==> IsDigit(s[i])
  }

  lemma {:induction false} NumberOfDigits(n: nat)
    ensures AllDigits(Digits(n)) && Number(Digits(n)) == Some(n)
  {
    if n > 0 {
      NumberOfDigits(n / 10);
      assert Digits(n)[..|Digits(n)| - 1] == Digits(n / 10);
    }
  }

  /** Leading zeros do not count. */
  lemma {:induction false} NumberOfZeros(count: nat, s: string)
    requires AllDigits(s)
    ensures AllDigits(Zeros(count) + s) && Number(Zeros(count) + s) == Number(s)
    decreases |s|, count
  {
    var padded := Zeros(count) + s;
    if s != "" {
      NumberOfZeros(count, s[..|s| - 1]);
      assert padded[..|padded| - 1] == Zeros(count) + s[..|s| - 1];
    } else if count > 0 {
      NumberOfZeros(count - 1, "");
      assert padded[..|padded| - 1] == Zeros(count - 1) + "";
    }
  }

  lemma PaddedReads(n: nat, width: nat)
    requires n < UINT32
    ensures AllDigits(Padded(n, width)) && Padded(n, width) != "" && ParseUint32(Padded(n, width)) == Some(n)
  {
    var digits := if n == 0 then "0" else Digits(n);
    NumberOfNumeral(n);
    if |digits| < width {
      NumberOfZeros(width - |digits|, digits);
    }
  }

  lemma NumberOfNumeral(n: nat)
    ensures var digits := if n == 0 then "0" else Digits(n); digits != "" && AllDigits(digits) && Number(digits) == Some(n)
  {
    if n == 0 {
      assert "0"[..0] == "";
    } else {
      NumberOfDigits(n);
    }
  }

  lemma {:induction false} DigitsBeforeSlash(digits: string, rest: string)
    requires AllDigits(digits)
    ensures BeforeSlash(digits + ("/" + rest)) == digits && Slashes(digits + ("/" + rest)) == 1 + Slashes(rest)
  {
    if digits == "" {
      assert digits + ("/" + rest) == "/" + rest && ("/" + rest)[1..] == rest;
    } else {
      assert (digits + ("/" + rest))[1..] == digits[1..] + ("/" + rest);
      DigitsBeforeSlash(digits[1..], rest);
    }
  }

  lemma {:induction false} NoSlash(digits: string)
    requires AllDigits(digits)
    ensures Slashes(digits) == 0
  {
    if digits != "" {
      NoSlash(digits[1..]);
    }
  }

  /** The identifier a partition prints is the one that names it: no two partitions share one. */
  lemma IdRoundTrip(p: Partition)
    requires p.index < p.modulus < UINT32
    ensures ParsePartitionId(Id(p)) == Some(p)
  {
    var left, right := Padded(p.index, Width(p.modulus)), Padded(p.modulus, 1);
    PaddedReads(p.index, Width(p.modulus));
    PaddedReads(p.modulus, 1);
    assert Id(p) == left + ("/" + right);
    DigitsBeforeSlash(left, right);
    NoSlash(right);
    assert Id(p)[|left| + 1..] == right;
  }

  lemma IdRefusesOutsiders(p: Partition)
    requires p.index < UINT32 && p.modulus < UINT32 && p.index >= p.modulus
    ensures ParsePartitionId(Id(p)) == None
  {
    var left, right := Padded(p.index, Width(p.modulus)), Padded(p.modulus, 1);
    PaddedReads(p.index, Width(p.modulus));
    PaddedReads(p.modulus, 1);
    assert Id(p) == left + ("/" + right);
    DigitsBeforeSlash(left, right);
    NoSlash(right);
    assert Id(p)[|left| + 1..] == right;
  }

  /** Decimal digits, at least one, of a number that fits 32 bits. */
  predicate Numeral(text: string, n: nat) {
    text != "" && AllDigits(text) && Number(text) == Some(n) && n < 4294967296
  }

  ghost predicate Spells(s: string, p: Partition) {
    exists left, right :: s == left + ("/" + right) && Numeral(left, p.index) && Numeral(right, p.modulus)
  }

  lemma {:induction false} NumbersAreDigits(s: string)
    requires Number(s).Some?
    ensures AllDigits(s)
    decreases |s|
  {
    if s != "" {
      NumbersAreDigits(s[..|s| - 1]);
    }
  }

  lemma {:induction false} SlashAfter(s: string)
    requires |BeforeSlash(s)| < |s|
    ensures s == BeforeSlash(s) + ("/" + s[|BeforeSlash(s)| + 1..])
  {
    if s[0] != '/' {
      var front, rest := BeforeSlash(s[1..]), s[1..][|BeforeSlash(s[1..])| + 1..];
      SlashAfter(s[1..]);
      ListObjects.Assoc([s[0]], front, "/" + rest);
      assert s == [s[0]] + s[1..];
      assert s[|front| + 2..] == rest;
    } else {
      assert s == "/" + s[1..];
    }
  }

  /** A text names a partition exactly when it is two numerals of 32 bits around a slash, the first below the second. */
  lemma ParsesIff(s: string, p: Partition)
    ensures ParsePartitionId(s) == Some(p) <==> Spells(s, p) && p.index < p.modulus
  {
    if ParsePartitionId(s) == Some(p) {
      var left := BeforeSlash(s);
      SlashAfter(s);
      NumbersAreDigits(left);
      NumbersAreDigits(s[|left| + 1..]);
      assert Numeral(left, p.index) && Numeral(s[|left| + 1..], p.modulus);
    }
    if Spells(s, p) && p.index < p.modulus {
      var left, right :| s == left + ("/" + right) && Numeral(left, p.index) && Numeral(right, p.modulus);
      DigitsBeforeSlash(left, right);
      NoSlash(right);
      assert s[|left| + 1..] == right;
    }
  }

  lemma {:induction false} DigitsGrow(a: nat, b: nat)
    requires a <= b
    ensures |Digits(a)| <= |Digits(b)|
    decreases b
  {
    if a > 0 {
      DigitsGrow(a / 10, b / 10);
    }
  }

  /** The shortest numeral of a number. */
  predicate Shortest(text: string, n: nat) {
    text != "" && AllDigits(text) && Number(text) == Some(n) && (text[0] != '0' || text == "0")
  }

  lemma {:induction false} NoLeadingZero(n: nat)
    requires n > 0
    ensures Digits(n) != "" && Digits(n)[0] != '0'
  {
    if n >= 10 {
      NoLeadingZero(n / 10);
    }
  }

  lemma NumeralIsShortest(n: nat)
    ensures Shortest(if n == 0 then "0" else Digits(n), n)
  {
    NumberOfNumeral(n);
    if n > 0 {
      NoLeadingZero(n);
    }
  }

  lemma PaddedIs(n: nat, width: nat) returns (zeros: string, numeral: string)
    ensures Padded(n, width) == zeros + numeral && (forall c :: c in zeros ==> c == '0') && Shortest(numeral, n)
    ensures |zeros| == if |numeral| < width then width - |numeral| else 0
    ensures numeral == if n == 0 then "0" else Digits(n)
  {
    numeral := if n == 0 then "0" else Digits(n);
    NumeralIsShortest(n);
    zeros := if |numeral| < width then Zeros(width - |numeral|) else "";
    assert zeros == "" ==> zeros + numeral == numeral;
  }

  lemma ModulusText(modulus: nat) returns (text: string)
    ensures Padded(modulus, 1) == text && Shortest(text, modulus)
  {
    var zeros;
    zeros, text := PaddedIs(modulus, 1);
    assert zeros == "" && zeros + text == text;
  }

  lemma LargestIndex(modulus: nat) returns (text: string)
    requires modulus > 0
    ensures Shortest(text, modulus - 1) && |text| == Width(modulus)
  {
    text := if modulus == 1 then "0" else Digits(modulus - 1);
    NumeralIsShortest(modulus - 1);
  }

  /** An identifier is the index, the slash and the modulus; the index has leading zeros up to the length of the largest one. */
  lemma IdText(p: Partition) returns (zeros: string, index: string, modulus: string, largest: string)
    requires p.index < p.modulus
    ensures Id(p) == zeros + index + "/" + modulus && forall c :: c in zeros ==> c == '0'
    ensures Shortest(index, p.index) && Shortest(modulus, p.modulus) && Shortest(largest, p.modulus - 1)
    ensures |zeros| + |index| == |largest|
  {
    zeros, index := PaddedIs(p.index, Width(p.modulus));
    modulus := ModulusText(p.modulus);
    largest := LargestIndex(p.modulus);
    IndexFits(p);
  }

  /** The identifiers of the partitions of one modulus are equally long. */
  lemma IdsAlign(p: Partition, q: Partition)
    requires p.modulus == q.modulus && p.index < p.modulus && q.index < q.modulus
    ensures |Id(p)| == |Id(q)|
  {
    IndexFits(p);
    IndexFits(q);
  }

  lemma IndexFits(p: Partition)
    requires p.index < p.modulus
    ensures |Padded(p.index, Width(p.modulus))| == Width(p.modulus)
  {
    DigitsGrow(p.index, p.modulus - 1);
    if p.index == 0 && p.modulus > 1 {
      assert |Digits(p.modulus - 1)| > 0;
    }
  }

  // ----- Fingerprints -----

  type Listed = ListObjects.Object

  datatype Fingerprint = Fingerprint(count: nat, bytes: int)

  function Add(a: Fingerprint, b: Fingerprint): Fingerprint {
    Fingerprint(a.count + b.count, a.bytes + b.bytes)
  }

  /** The hash is left open: any function from keys to partitions. */
  type Hash = string -> nat

  ghost predicate InRange(hash: Hash, modulus: nat) {
    forall key :: hash(key) < modulus
  }

  /** What a partition's accumulator holds after a listing. */
  function Of(hash: Hash, index: nat, objects: seq<Listed>): Fingerprint {
    if objects == [] then Fingerprint(0, 0)
    else
      var front, last := Of(hash, index, objects[..|objects| - 1]), objects[|objects| - 1];
      if hash(last.key) == index then Fingerprint(front.count + 1, front.bytes + last.size) else front
  }

  function Total(objects: seq<Listed>): Fingerprint {
    if objects == [] then Fingerprint(0, 0)
    else
      var front, last := Total(objects[..|objects| - 1]), objects[|objects| - 1];
      Fingerprint(front.count + 1, front.bytes + last.size)
  }

  function SumBelow(hash: Hash, n: nat, objects: seq<Listed>): Fingerprint {
    if n == 0 then Fingerprint(0, 0) else Add(SumBelow(hash, n - 1, objects), Of(hash, n - 1, objects))
  }

  lemma {:induction false} SumOfNothing(hash: Hash, n: nat)
    ensures SumBelow(hash, n, []) == Fingerprint(0, 0)
  {
    if n > 0 {
      SumOfNothing(hash, n - 1);
    }
  }

  lemma {:induction false} SumSnoc(hash: Hash, n: nat, front: seq<Listed>, last: Listed)
    ensures var before, after := SumBelow(hash, n, front), SumBelow(hash, n, front + [last]);
      after == if hash(last.key) < n then Fingerprint(before.count + 1, before.bytes + last.size) else before
  {
    assert (front + [last])[..|front|] == front;
    if n > 0 {
      SumSnoc(hash, n - 1, front, last);
    }
  }

  /** The partitions together hold the whole listing, counted once. */
  lemma {:induction false} PartitionsSumToTotal(hash: Hash, modulus: nat, objects: seq<Listed>)
    requires InRange(hash, modulus)
    ensures SumBelow(hash, modulus, objects) == Total(objects)
    decreases |objects|
  {
    if objects == [] {
      SumOfNothing(hash, modulus);
    } else {
      var front, last := objects[..|objects| - 1], objects[|objects| - 1];
      PartitionsSumToTotal(hash, modulus, front);
      SumSnoc(hash, modulus, front, last);
      assert objects == front + [last];
      assert hash(last.key) < modulus;
    }
  }

  lemma {:induction false} EqualPartsEqualSums(hash: Hash, n: nat, a: seq<Listed>, b: seq<Listed>)
    requires forall i :: 0 <= i < n ==> Of(hash, i, a) == Of(hash, i, b)
    ensures SumBelow(hash, n, a) == SumBelow(hash, n, b)
  {
    if n > 0 {
      EqualPartsEqualSums(hash, n - 1, a, b);
    }
  }

  class Accumulators {
    const hash: Hash
    const modulus: nat
    const partitions: array<Fingerprint>

    ghost predicate Valid()
      reads this
    {
      partitions.Length == modulus && InRange(hash, modulus)
    }

    /** The accumulators hold exactly this listing. */
    ghost predicate Hold(objects: seq<Listed>)
      reads this, partitions
    {
      Valid() && forall i :: 0 <= i < modulus ==> partitions[i] == Of(hash, i, objects)
    }

    constructor (hash: Hash, modulus: nat)
      requires InRange(hash, modulus)
      ensures this.hash == hash && this.modulus == modulus && fresh(partitions) && Hold([])
    {
      this.hash := hash;
      this.modulus := modulus;
      partitions := new Fingerprint[modulus](i => Fingerprint(0, 0));
    }

    method AddKey(key: string, size: int, ghost before: seq<Listed>)
      requires Hold(before)
      modifies partitions
      ensures Hold(before + [ListObjects.Object(key, size)])
    {
      var index := hash(key);
      assert (before + [ListObjects.Object(key, size)])[..|before|] == before;
      partitions[index] := Fingerprint(partitions[index].count + 1, partitions[index].bytes + size);
    }
  }

  // ----- The scan -----

  /** A sampled partition whose fingerprints differ, when the listing is complete. */
  predicate Differs(hash: Hash, index: nat, local: seq<Listed>, upstream: seq<Listed>) {
    Of(hash, index, local) != Of(hash, index, upstream)
  }

  function Mismatched(hash: Hash, modulus: nat, sampled: seq<nat>, local: seq<Listed>, upstream: seq<Listed>): seq<Partition> {
    if sampled == [] then []
    else
      var front, last := Mismatched(hash, modulus, sampled[..|sampled| - 1], local, upstream), sampled[|sampled| - 1];
      if Differs(hash, last, local, upstream) then front + [Partition(modulus, last)] else front
  }

  /** The sampled partitions that hold anything on either side. */
  function Scanned(hash: Hash, sampled: seq<nat>, local: seq<Listed>, upstream: seq<Listed>): nat {
    if sampled == [] then 0
    else
      var last := sampled[|sampled| - 1];
      Scanned(hash, sampled[..|sampled| - 1], local, upstream) +
      (if Of(hash, last, local).count == 0 && Of(hash, last, upstream).count == 0 then 0 else 1)
  }

  method Fill(hash: Hash, modulus: nat, objects: seq<Listed>) returns (acc: Accumulators)
    requires InRange(hash, modulus)
    ensures fresh(acc) && fresh(acc.partitions) && acc.hash == hash && acc.modulus == modulus && acc.Hold(objects)
  {
    acc := new Accumulators(hash, modulus);
    for i := 0 to |objects|
      invariant fresh(acc) && fresh(acc.partitions) && acc.hash == hash && acc.modulus == modulus && acc.Hold(objects[..i])
    {
      assert objects[..i + 1] == objects[..i] + [objects[i]];
      acc.AddKey(objects[i].key, objects[i].size, objects[..i]);
    }
    assert objects[..|objects|] == objects;
  }

  function Ids(partitions: seq<Partition>): (ids: seq<string>)
    ensures |ids| == |partitions|
  {
    seq(|partitions|, i requires 0 <= i < |partitions| => Id(partitions[i]))
  }

  /** The comparison loop: the identifiers of the partitions that differ. */
  method Compare(mine: Accumulators, theirs: Accumulators, sampled: seq<nat>, complete: bool, ghost local: seq<Listed>, ghost upstream: seq<Listed>)
    returns (ids: seq<string>, scanned: nat)
    requires mine.hash == theirs.hash && mine.modulus == theirs.modulus && mine.Hold(local) && theirs.Hold(upstream)
    requires forall i :: 0 <= i < |sampled| ==> sampled[i] < mine.modulus
    ensures ids == Ids(if complete then Mismatched(mine.hash, mine.modulus, sampled, local, upstream) else [])
    ensures scanned == Scanned(mine.hash, sampled, local, upstream)
  {
    ids, scanned := [], 0;
    for i := 0 to |sampled|
      invariant ids == Ids(if complete then Mismatched(mine.hash, mine.modulus, sampled[..i], local, upstream) else [])
      invariant scanned == Scanned(mine.hash, sampled[..i], local, upstream)
    {
      assert sampled[..i + 1][..i] == sampled[..i];
      var a, b := mine.partitions[sampled[i]], theirs.partitions[sampled[i]];
      EmptyAlike(mine.hash, sampled[i], local);
      EmptyAlike(mine.hash, sampled[i], upstream);
      if a.count == 0 && b.count == 0 {
        continue;
      }
      scanned := scanned + 1;
      if complete && (a.count != b.count || a.bytes != b.bytes) {
        ids := ids + [Id(Partition(mine.modulus, sampled[i]))];
      }
    }
    assert sampled[..|sampled|] == sampled;
  }

  /** The escalation loop: one child per identifier, through its printed form. */
  method Escalate(ids: seq<string>, ghost partitions: seq<Partition>) returns (ok: bool, children: seq<Partition>)
    requires ids == Ids(partitions) && forall i :: 0 <= i < |partitions| ==> partitions[i].index < partitions[i].modulus < UINT32
    ensures ok && children == partitions
  {
    children := [];
    for i := 0 to |ids|
      invariant children == partitions[..i]
    {
      IdRoundTrip(partitions[i]);
      assert ids[i] == Id(partitions[i]) && partitions[..i + 1] == partitions[..i] + [partitions[i]];
      var partition := ParsePartitionId(ids[i]);
      if partition.None? {
        return false, children;
      }
      children := children + [partition.value];
    }
    ok := true;
  }

  /** Handle, after the two listings: the children are the partitions to sync. */
  method Evaluate(hash: Hash, modulus: nat, sampled: seq<nat>, local: seq<Listed>, upstream: seq<Listed>, complete: bool)
    returns (ok: bool, children: seq<Partition>, scanned: nat, healthy: bool)
    requires InRange(hash, modulus) && modulus < UINT32 && forall i :: 0 <= i < |sampled| ==> sampled[i] < modulus
    ensures ok && children == (if complete then Mismatched(hash, modulus, sampled, local, upstream) else [])
    ensures healthy == (complete && children == []) && scanned == Scanned(hash, sampled, local, upstream)
  {
    var mine := Fill(hash, modulus, local);
    var theirs := Fill(hash, modulus, upstream);
    var ids;
    ids, scanned := Compare(mine, theirs, sampled, complete, local, upstream);
    ghost var partitions := if complete then Mismatched(hash, modulus, sampled, local, upstream) else [];
    forall i | 0 <= i < |partitions| ensures partitions[i].index < partitions[i].modulus < UINT32 {
      FromSample(hash, modulus, sampled, local, upstream, i);
    }
    ok, children := Escalate(ids, partitions);
    healthy := complete && |ids| == 0;
  }

  lemma {:induction false} EmptyAlike(hash: Hash, index: nat, objects: seq<Listed>)
    ensures Of(hash, index, objects).count == 0 ==> Of(hash, index, objects) == Fingerprint(0, 0)
    decreases |objects|
  {
    if objects != [] {
      EmptyAlike(hash, index, objects[..|objects| - 1]);
    }
  }

  /** A sampled partition gets one child exactly when it differs. */
  lemma {:induction false} EscalatedIff(hash: Hash, modulus: nat, sampled: seq<nat>, local: seq<Listed>, upstream: seq<Listed>, index: nat)
    ensures Partition(modulus, index) in Mismatched(hash, modulus, sampled, local, upstream) <==>
      index in sampled && Differs(hash, index, local, upstream)
    decreases |sampled|
  {
    if sampled != [] {
      var front, last := sampled[..|sampled| - 1], sampled[|sampled| - 1];
      EscalatedIff(hash, modulus, front, local, upstream, index);
      assert sampled == front + [last];
    }
  }

  /** No two children share a partition, so no key belongs to two of them. */
  lemma {:induction false} ChildrenAreApart(hash: Hash, modulus: nat, sampled: seq<nat>, local: seq<Listed>, upstream: seq<Listed>)
    requires forall i, j :: 0 <= i < j < |sampled| ==> sampled[i] != sampled[j]
    ensures var children := Mismatched(hash, modulus, sampled, local, upstream);
      forall i, j :: 0 <= i < j < |children| ==> children[i].index != children[j].index
    decreases |sampled|
  {
    if sampled != [] {
      var front, last := sampled[..|sampled| - 1], sampled[|sampled| - 1];
      ChildrenAreApart(hash, modulus, front, local, upstream);
      EscalatedIff(hash, modulus, front, local, upstream, last);
      var children := Mismatched(hash, modulus, front, local, upstream);
      forall i | 0 <= i < |children| ensures children[i].index != last {
        FromSample(hash, modulus, front, local, upstream, i);
        assert last !in front;
      }
    }
  }

  lemma {:induction false} FromSample(hash: Hash, modulus: nat, sampled: seq<nat>, local: seq<Listed>, upstream: seq<Listed>, i: nat)
    requires i < |Mismatched(hash, modulus, sampled, local, upstream)|
    ensures Mismatched(hash, modulus, sampled, local, upstream)[i].modulus == modulus
    ensures Mismatched(hash, modulus, sampled, local, upstream)[i].index in sampled
    decreases |sampled|
  {
    var front := sampled[..|sampled| - 1];
    if i < |Mismatched(hash, modulus, front, local, upstream)| {
      FromSample(hash, modulus, front, local, upstream, i);
    }
  }

  /** When every partition is sampled and none differs, catalogue and bucket have equal counts and equal sizes. */
  lemma HealthyMeansEqual(hash: Hash, modulus: nat, sampled: seq<nat>, local: seq<Listed>, upstream: seq<Listed>)
    requires InRange(hash, modulus) && forall i :: 0 <= i < modulus ==> i in sampled
    requires Mismatched(hash, modulus, sampled, local, upstream) == []
    ensures Total(local) == Total(upstream)
  {
    forall i | 0 <= i < modulus ensures Of(hash, i, local) == Of(hash, i, upstream) {
      EscalatedIff(hash, modulus, sampled, local, upstream, i);
    }
    EqualPartsEqualSums(hash, modulus, local, upstream);
    PartitionsSumToTotal(hash, modulus, local);
    PartitionsSumToTotal(hash, modulus, upstream);
  }
}
