/** Attachments of a MIME tree: which parts are listed, under which index, and what an index gets back. */
module MimeParts {
  import opened Prelude

  datatype Disposition = Absent | Attached | Inline | Unusual

  /** `content` is the decoded payload; a part may have none. */
  datatype Leaf = Leaf(disposition: Disposition, filename: Option<string>, contentType: string, content: Option<seq<bv8>>)

  /** A multipart (section 5.1 of RFC 2046) or enclosed message has sub-parts; every other part is a leaf. */
  datatype Part = Single(leaf: Leaf) | Multi(parts: seq<Part>)

  // ---------------------------------------------------------------- walking the tree

  /** `walk`: every part, each before its sub-parts. */
  function Walk(part: Part): seq<Part>
    decreases part
  {
    [part] + match part case Single(_) => [] case Multi(parts) => WalkAll(parts)
  }

  function WalkAll(parts: seq<Part>): seq<Part>
    decreases parts
  {
    if parts == [] then [] else Walk(parts[0]) + WalkAll(parts[1..])
  }

  /** The leaves of a tree in order: what a reader would number. */
  function Leaves(part: Part): seq<Leaf>
    decreases part
  {
    match part case Single(leaf) => [leaf] case Multi(parts) => LeavesOf(parts)
  }

  function LeavesOf(parts: seq<Part>): seq<Leaf>
    decreases parts
  {
    if parts == [] then [] else Leaves(parts[0]) + LeavesOf(parts[1..])
  }

  function AsLeaf(part: Part): seq<Leaf> {
    match part case Single(leaf) => [leaf] case Multi(_) => []
  }

  function Singles(walk: seq<Part>): seq<Leaf>
    decreases |walk|
  {
    if walk == [] then [] else AsLeaf(walk[0]) + Singles(walk[1..])
  }

  lemma {:induction false} SinglesDistribute(a: seq<Part>, b: seq<Part>)
    ensures Singles(a + b) == Singles(a) + Singles(b)
    decreases |a|
  {
    hide AsLeaf;
    if a == [] {
      assert a + b == b;
    } else {
      assert (a + b)[1..] == a[1..] + b;
      SinglesDistribute(a[1..], b);
      assert AsLeaf(a[0]) + Singles(a[1..]) + Singles(b) == AsLeaf(a[0]) + (Singles(a[1..]) + Singles(b));
    }
  }

  lemma {:induction false} WalkVisitsLeaves(part: Part)
    ensures Singles(Walk(part)) == Leaves(part)
    decreases part
  {
    match part
    case Single(leaf) =>
      assert Walk(part) == [part];
      assert Singles([part][1..]) == [];
    case Multi(parts) =>
      WalkAllVisitsLeaves(parts);
      assert Walk(part)[1..] == WalkAll(parts);
  }

  lemma {:induction false} WalkAllVisitsLeaves(parts: seq<Part>)
    ensures Singles(WalkAll(parts)) == LeavesOf(parts)
    decreases parts
  {
    if parts != [] {
      WalkVisitsLeaves(parts[0]);
      WalkAllVisitsLeaves(parts[1..]);
      SinglesDistribute(Walk(parts[0]), WalkAll(parts[1..]));
    }
  }

  // ---------------------------------------------------------------- indices as text

  function Digit(d: nat): char
    requires d < 10
  {
    '0' + d as char
  }

  /** `str` of a natural number. */
  function Decimal(n: nat): string {
    if n < 10 then [Digit(n)] else Decimal(n / 10) + [Digit(n % 10)]
  }

  function Value(s: string): int {
    if s == [] then 0 else 10 * Value(s[..|s| - 1]) + (s[|s| - 1] as int - '0' as int)
  }

  lemma {:induction false} DecimalReadsBack(n: nat)
    ensures Value(Decimal(n)) == n
  {
    if n < 10 {
      assert Decimal(n)[..0] == [];
    } else {
      DecimalReadsBack(n / 10);
      var front := Decimal(n / 10);
      assert Decimal(n)[..|front|] == front;
    }
  }

  lemma DecimalIsInjective(m: nat, n: nat)
    ensures Decimal(m) == Decimal(n) <==> m == n
  {
    DecimalReadsBack(m);
    DecimalReadsBack(n);
  }

  // ---------------------------------------------------------------- attachments

  /** A part marked as an attachment, or a named part not marked inline. */
  predicate Qualifies(leaf: Leaf) {
    leaf.disposition.Attached? || (leaf.filename.Some? && leaf.filename.value != "" && !leaf.disposition.Inline?)
  }

  function Content(leaf: Leaf): seq<bv8> {
    match leaf.content case None => [] case Some(bytes) => bytes
  }

  datatype Indexed = Indexed(index: nat, leaf: Leaf)

  datatype Attachment = Attachment(partIndex: string, filename: Option<string>, contentType: string, size: nat)

  datatype Extraction = Found(content: seq<bv8>, contentType: string, filename: Option<string>) | NotFound

  /** The qualifying leaves from number `from` on, with their numbers. */
  function Numbered(leaves: seq<Leaf>, from: nat): seq<Indexed> {
    if leaves == [] then []
    else (if Qualifies(leaves[0]) then [Indexed(from, leaves[0])] else []) + Numbered(leaves[1..], from + 1)
  }

  function Describe(item: Indexed): Attachment {
    Attachment(Decimal(item.index), item.leaf.filename, item.leaf.contentType, |Content(item.leaf)|)
  }

  /** The attachments `parse_full_message` lists. */
  function Listed(message: Part): seq<Attachment> {
    var items := Numbered(Leaves(message), 0);
    seq(|items|, k requires 0 <= k < |items| => Describe(items[k]))
  }

  /** `extract_attachment_bytes`: the first listed part whose index reads `partIndex`. */
  function FindIn(items: seq<Indexed>, partIndex: string): Extraction {
    if items == [] then NotFound
    else if Decimal(items[0].index) == partIndex then
      Found(Content(items[0].leaf), items[0].leaf.contentType, items[0].leaf.filename)
    else FindIn(items[1..], partIndex)
  }

  function Extract(message: Part, partIndex: string): Extraction {
    FindIn(Numbered(Leaves(message), 0), partIndex)
  }

  /** Numbering keeps every qualifying leaf under its own number, in order, and nothing else. */
  lemma {:induction false} NumberedAreLeaves(leaves: seq<Leaf>, from: nat)
    ensures var items := Numbered(leaves, from);
      && (forall i, j :: 0 <= i < j < |items| ==> items[i].index < items[j].index)
      && (forall item :: item in items <==>
            from <= item.index < from + |leaves| && item.leaf == leaves[item.index - from] && Qualifies(item.leaf))
  {
    if leaves != [] {
      NumberedAreLeaves(leaves[1..], from + 1);
      var rest := Numbered(leaves[1..], from + 1);
      assert forall j :: 0 <= j < |rest| ==> rest[j] in rest;
    }
  }

  lemma {:induction false} FindInFinds(items: seq<Indexed>, partIndex: string)
    requires forall i, j :: 0 <= i < j < |items| ==> items[i].index < items[j].index
    ensures forall item :: item in items && Decimal(item.index) == partIndex ==>
      FindIn(items, partIndex) == Found(Content(item.leaf), item.leaf.contentType, item.leaf.filename)
    ensures FindIn(items, partIndex).NotFound? <==> forall item :: item in items ==> Decimal(item.index) != partIndex
  {
    if items != [] {
      FindInFinds(items[1..], partIndex);
      assert items == [items[0]] + items[1..];
      forall item | item in items && Decimal(item.index) == partIndex
        ensures FindIn(items, partIndex) == Found(Content(item.leaf), item.leaf.contentType, item.leaf.filename)
      {
        DecimalIsInjective(items[0].index, item.index);
        if item != items[0] {
          var j :| 0 <= j < |items[1..]| && items[1..][j] == item;
          assert items[j + 1] == item;
        }
      }
    }
  }

  // ---------------------------------------------------------------- main results

  /** The listed indices are distinct, and increase in the order of the tree's leaves. */
  lemma ListedIndicesIncrease(message: Part, i: nat, j: nat)
    requires i < j < |Listed(message)|
    ensures Value(Listed(message)[i].partIndex) < Value(Listed(message)[j].partIndex)
    ensures Listed(message)[i].partIndex != Listed(message)[j].partIndex
  {
    var items := Numbered(Leaves(message), 0);
    NumberedAreLeaves(Leaves(message), 0);
    DecimalReadsBack(items[i].index);
    DecimalReadsBack(items[j].index);
  }

  /** Extracting by a listed index returns that very part: the leaf with that number, with the listed type, name
      and size. */
  lemma ListedIndexRoundTrips(message: Part, k: nat)
    requires k < |Listed(message)|
    ensures var a, n := Listed(message)[k], Value(Listed(message)[k].partIndex);
      && 0 <= n < |Leaves(message)|
      && Extract(message, a.partIndex) == Found(Content(Leaves(message)[n]), a.contentType, a.filename)
      && |Content(Leaves(message)[n])| == a.size
      && a.contentType == Leaves(message)[n].contentType && a.filename == Leaves(message)[n].filename
  {
    var items := Numbered(Leaves(message), 0);
    NumberedAreLeaves(Leaves(message), 0);
    FindInFinds(items, Listed(message)[k].partIndex);
    DecimalReadsBack(items[k].index);
    assert items[k] in items;
  }

  /** An index is rejected exactly when it is not listed. */
  lemma UnlistedIndexIsRejected(message: Part, partIndex: string)
    ensures Extract(message, partIndex).NotFound? <==> forall a :: a in Listed(message) ==> a.partIndex != partIndex
  {
    var items, listed := Numbered(Leaves(message), 0), Listed(message);
    NumberedAreLeaves(Leaves(message), 0);
    FindInFinds(items, partIndex);
    forall k | 0 <= k < |items|
      ensures items[k] in items && listed[k] in listed && listed[k].partIndex == Decimal(items[k].index)
    {
    }
  }

  /** A leaf is listed exactly when it qualifies, under its number among all leaves. */
  lemma ListedExactlyWhenQualifying(message: Part, n: nat)
    requires n < |Leaves(message)|
    ensures Qualifies(Leaves(message)[n]) <==> exists a :: a in Listed(message) && a.partIndex == Decimal(n)
  {
    var items, listed := Numbered(Leaves(message), 0), Listed(message);
    NumberedAreLeaves(Leaves(message), 0);
    if Qualifies(Leaves(message)[n]) {
      var item := Indexed(n, Leaves(message)[n]);
      assert item in items;
      var k :| 0 <= k < |items| && items[k] == item;
      assert listed[k] in listed && listed[k].partIndex == Decimal(n);
    }
    if a :| a in listed && a.partIndex == Decimal(n) {
      var k :| 0 <= k < |listed| && listed[k] == a;
      DecimalIsInjective(items[k].index, n);
      assert items[k] in items;
    }
  }

  // ---------------------------------------------------------------- the loops

  lemma NothingLeft(walk: seq<Part>, index: nat)
    requires walk == []
    ensures Numbered(Singles(walk), index) == []
  {
  }

  lemma OnePart(items: seq<Indexed>, walk: seq<Part>, index: nat)
    requires walk != []
    ensures items + Numbered(Singles(walk), index) ==
      match walk[0]
      case Multi(_) => items + Numbered(Singles(walk[1..]), index)
      case Single(leaf) =>
        (if Qualifies(leaf) then items + [Indexed(index, leaf)] else items) + Numbered(Singles(walk[1..]), index + 1)
  {
    var rest := Singles(walk[1..]);
    match walk[0]
    case Multi(_) =>
      assert Singles(walk) == [] + rest == rest;
    case Single(leaf) =>
      assert Singles(walk) == [leaf] + rest && ([leaf] + rest)[1..] == rest;
      hide Qualifies;
      var left := Numbered(rest, index + 1);
      assert items + ([Indexed(index, leaf)] + left) == items + [Indexed(index, leaf)] + left;
      assert [] + left == left;
  }

  lemma NextPart(walk: seq<Part>, i: nat)
    requires i < |walk|
    ensures walk[i..] != [] && walk[i..][0] == walk[i] && walk[i..][1..] == walk[i + 1..]
  {
  }

  /** `_iter_attachment_parts`: the counter passes over every leaf, qualifying or not, and over no multipart. */
  method IterAttachmentParts(message: Part) returns (items: seq<Indexed>)
    ensures items == Numbered(Leaves(message), 0)
  {
    var walk := Walk(message);
    WalkVisitsLeaves(message);
    items := [];
    var index, i := 0, 0;
    assert walk[0..] == walk;
    ghost var all := Numbered(Leaves(message), 0);
    assert items + Numbered(Singles(walk), 0) == all;
    hide Numbered;
    hide Singles;
    hide Leaves;
    hide Walk;
    while i < |walk|
      invariant 0 <= i <= |walk|
      invariant items + Numbered(Singles(walk[i..]), index) == all
    {
      OnePart(items, walk[i..], index);
      NextPart(walk, i);
      match walk[i] {
        case Multi(_) =>
        case Single(leaf) =>
          if leaf.disposition.Attached? || (leaf.filename.Some? && leaf.filename.value != "" && !leaf.disposition.Inline?) {
            items := items + [Indexed(index, leaf)];
          }
          index := index + 1;
      }
      i := i + 1;
    }
    NothingLeft(walk[i..], index);
  }

  method ParseAttachments(message: Part) returns (attachments: seq<Attachment>)
    ensures attachments == Listed(message)
  {
    var items := IterAttachmentParts(message);
    attachments := [];
    var i := 0;
    while i < |items|
      invariant 0 <= i <= |items| && |attachments| == i
      invariant forall k :: 0 <= k < i ==> attachments[k] == Describe(items[k])
    {
      var leaf := items[i].leaf;
      attachments := attachments
        + [Attachment(Decimal(items[i].index), leaf.filename, leaf.contentType, |Content(leaf)|)];
      i := i + 1;
    }
  }

  method ExtractAttachment(message: Part, partIndex: string) returns (r: Extraction)
    ensures r == Extract(message, partIndex)
  {
    var items := IterAttachmentParts(message);
    var i := 0;
    while i < |items|
      invariant 0 <= i <= |items|
      invariant FindIn(items[i..], partIndex) == Extract(message, partIndex)
    {
      assert items[i..][1..] == items[i + 1..];
      if Decimal(items[i].index) == partIndex {
        var leaf := items[i].leaf;
        return Found(Content(leaf), leaf.contentType, leaf.filename);
      }
      i := i + 1;
    }
    return NotFound;
  }
}
