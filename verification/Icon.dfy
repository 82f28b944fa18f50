/**
 Icons of tools/winres/icon.go: the images of a .ico file as RT_ICON resources and the
 RT_GROUP_ICON that lists them, followed through the resource section.
 */
module Icon {
  import opened Bytes
  import opened Rsrc
  import opened RsrcReader

  const RT_ICON: u16 := 3
  const RT_GROUP_ICON: u16 := 14

  datatype IconEntry = IconEntry(width: byte, height: byte, colors: byte, planes: u16, bits: u16, data: seq<byte>)

  // ----- the .ico file -----

  function ImageCount(b: seq<byte>): nat
    requires |b| >= 6
  {
    U16(b, 4)
  }

  function ImageSize(b: seq<byte>, i: nat): u32
    requires 6 + 16 * i + 16 <= |b|
  {
    U32(b, 6 + 16 * i + 8)
  }

  function ImageOffset(b: seq<byte>, i: nat): u32
    requires 6 + 16 * i + 16 <= |b|
  {
    U32(b, 6 + 16 * i + 12)
  }

  ghost predicate HeaderOk(b: seq<byte>) {
    |b| >= 6 && U16(b, 0) == 0 && U16(b, 2) == 1 && ImageCount(b) > 0 && 6 + 16 * ImageCount(b) <= |b|
  }

  predicate ImageOk(b: seq<byte>, i: nat)
    requires 6 + 16 * i + 16 <= |b|
  {
    ImageSize(b, i) > 0 && ImageOffset(b, i) + ImageSize(b, i) <= |b|
  }

  // The files that parseICO accepts.
  ghost predicate Accepted(b: seq<byte>) {
    HeaderOk(b) && forall i :: 0 <= i < ImageCount(b) ==> ImageOk(b, i)
  }

  // Image i of the directory has a length of at least one and lies inside the file.
  ghost predicate ImageInside(b: seq<byte>, i: nat)
    requires 6 + 16 * i + 16 <= |b|
  {
    var length, offset := U32(b, 6 + 16 * i + 8), U32(b, 6 + 16 * i + 12);
    length > 0 && offset + length <= |b|
  }

  // Accepted are exactly the files of type 1 with a whole directory of at least one image, all of
  // them inside the file.
  lemma AcceptedIff(b: seq<byte>)
    ensures Accepted(b) <==>
            && |b| >= 6 && U16(b, 0) == 0 && U16(b, 2) == 1 && U16(b, 4) > 0 && 6 + 16 * U16(b, 4) <= |b|
            && forall i :: 0 <= i < U16(b, 4) ==> ImageInside(b, i)
  {
    hide U16, U32;
    if HeaderOk(b) {
      forall i | 0 <= i < U16(b, 4) ensures ImageInside(b, i) <==> ImageOk(b, i) {
      }
    }
  }

  // The bytes of image i, straight from the file.
  function ImageBytes(b: seq<byte>, i: nat): seq<byte>
    requires 6 + 16 * i + 16 <= |b| && ImageOk(b, i)
  {
    b[ImageOffset(b, i)..ImageOffset(b, i) + ImageSize(b, i)]
  }

  function EntryOfImage(b: seq<byte>, i: nat): IconEntry
    requires 6 + 16 * i + 16 <= |b| && ImageOk(b, i)
  {
    var d := 6 + 16 * i;
    IconEntry(b[d], b[d + 1], b[d + 2], U16(b, d + 4), U16(b, d + 6), ImageBytes(b, i))
  }

  method ParseICO(b: seq<byte>) returns (r: Result<seq<IconEntry>>)
    ensures r.Ok? <==> Accepted(b)
    ensures r.Ok? ==> |r.value| == ImageCount(b) && forall i :: 0 <= i < |r.value| ==> r.value[i] == EntryOfImage(b, i)
  {
    hide U16, U32;
    if |b| < 6 {
      return Err("truncated file");
    }
    if U16(b, 0) != 0 || U16(b, 2) != 1 {
      return Err("not a .ico");
    }
    var n: nat := U16(b, 4);
    if n == 0 {
      return Err("no images");
    }
    if |b| < 6 + 16 * n {
      return Err("truncated directory");
    }
    var out := [];
    for i := 0 to n
      invariant |out| == i
      invariant forall k :: 0 <= k < i ==> ImageOk(b, k) && out[k] == EntryOfImage(b, k)
    {
      var d := 6 + 16 * i;
      var size, off := U32(b, d + 8), U32(b, d + 12);
      if size <= 0 || off < 0 || off + size > |b| {
        assert !ImageOk(b, i);
        return Err("an image runs out of the file");
      }
      out := out + [IconEntry(b[d], b[d + 1], b[d + 2], U16(b, d + 4), U16(b, d + 6), b[off..off + size])];
    }
    r := Ok(out);
  }

  // ----- the format of .ico files: header, directory, images -----

  // Where the data of image k goes.
  ghost function DataAt(images: seq<IconEntry>, k: nat): nat
    requires k <= |images|
  {
    if k == 0 then 6 + 16 * |images| else DataAt(images, k - 1) + |images[k - 1].data|
  }

  ghost function IcoEntry(e: IconEntry, offset: nat): (b: seq<byte>)
    ensures |b| == 16
  {
    [e.width, e.height, e.colors, 0] + Le16(e.planes) + Le16(e.bits) + Le32(Trunc32(|e.data|)) + Le32(Trunc32(offset))
  }

  ghost function IcoDirectory(images: seq<IconEntry>, k: nat): (b: seq<byte>)
    requires k <= |images|
    ensures |b| == 16 * k
  {
    if k == 0 then [] else IcoDirectory(images, k - 1) + IcoEntry(images[k - 1], DataAt(images, k - 1))
  }

  ghost function IcoData(images: seq<IconEntry>, k: nat): (b: seq<byte>)
    requires k <= |images|
    ensures 6 + 16 * |images| + |b| == DataAt(images, k)
  {
    if k == 0 then [] else IcoData(images, k - 1) + images[k - 1].data
  }

  ghost function IcoFile(images: seq<IconEntry>): seq<byte> {
    var n := |images|;
    Le16(0) + Le16(1) + Le16(Trunc16(n)) + IcoDirectory(images, n) + IcoData(images, n)
  }

  lemma {:induction false} DirectoryHeld(b: seq<byte>, images: seq<IconEntry>, k: nat, i: nat)
    requires i < k <= |images| && HoldsBytes(b, 6, IcoDirectory(images, k))
    ensures HoldsBytes(b, 6 + 16 * i, IcoEntry(images[i], DataAt(images, i)))
  {
    hide HoldsBytes, IcoEntry, DataAt;
    HoldsSplit(b, 6, IcoDirectory(images, k - 1), IcoEntry(images[k - 1], DataAt(images, k - 1)));
    if i < k - 1 {
      DirectoryHeld(b, images, k - 1, i);
    }
  }

  lemma {:induction false} DataHeld(b: seq<byte>, images: seq<IconEntry>, k: nat, i: nat)
    requires i < k <= |images| && HoldsBytes(b, DataAt(images, 0), IcoData(images, k))
    ensures HoldsBytes(b, DataAt(images, i), images[i].data) && DataAt(images, i) <= DataAt(images, k)
  {
    hide HoldsBytes;
    HoldsSplit(b, DataAt(images, 0), IcoData(images, k - 1), images[k - 1].data);
    if i < k - 1 {
      DataHeld(b, images, k - 1, i);
    }
  }

  lemma IcoEntryRead(b: seq<byte>, at: nat, e: IconEntry, offset: nat)
    requires HoldsBytes(b, at, IcoEntry(e, offset)) && |e.data| < 0x1_0000_0000 && offset < 0x1_0000_0000
    ensures at + 16 <= |b|
    ensures b[at] == e.width && b[at + 1] == e.height && b[at + 2] == e.colors
    ensures U16(b, at + 4) == e.planes && U16(b, at + 6) == e.bits
    ensures U32(b, at + 8) == |e.data| && U32(b, at + 12) == offset
  {
    hide HoldsBytes, Le16, Le32, U16, U32;
    HoldsLength(b, at, IcoEntry(e, offset));
    var q, c, d, n, o := [e.width, e.height, e.colors, 0], Le16(e.planes), Le16(e.bits), Le32(|e.data|), Le32(offset);
    HoldsSplit(b, at, q + c + d + n, o);
    HoldsSplit(b, at, q + c + d, n);
    HoldsSplit(b, at, q + c, d);
    HoldsSplit(b, at, q, c);
    FourHeld(b, at, e.width, e.height, e.colors, 0);
    HeldFields(b, at + 4, e.planes);
    HeldFields(b, at + 6, e.bits);
    HeldFields(b, at + 8, |e.data|);
    HeldFields(b, at + 12, offset);
  }

  lemma IcoHeader(images: seq<IconEntry>)
    requires |images| < 0x1_0000
    ensures var b, n := IcoFile(images), |images|;
            && |b| == DataAt(images, n) && |b| >= 6 + 16 * n
            && U16(b, 0) == 0 && U16(b, 2) == 1 && U16(b, 4) == n
            && HoldsBytes(b, 6, IcoDirectory(images, n)) && HoldsBytes(b, DataAt(images, 0), IcoData(images, n))
  {
    hide HoldsBytes, Le16, U16, IcoDirectory, IcoData;
    var b, n := IcoFile(images), |images|;
    var a, c, d, dir, data := Le16(0), Le16(1), Le16(n), IcoDirectory(images, n), IcoData(images, n);
    WholeHeld(b);
    HoldsSplit(b, 0, a + c + d + dir, data);
    HoldsSplit(b, 0, a + c + d, dir);
    HoldsSplit(b, 0, a + c, d);
    HoldsSplit(b, 0, a, c);
    HeldFields(b, 0, 0);
    HeldFields(b, 2, 1);
    HeldFields(b, 4, n);
  }

  // A file that is written as the format says, with 1 to 65535 images none of which is empty, is
  // accepted, and its images are those that were written.
  lemma IcoRead(images: seq<IconEntry>)
    requires 0 < |images| < 0x1_0000 && |IcoFile(images)| < 0x1_0000_0000
    requires forall e :: e in images ==> e.data != []
    ensures Accepted(IcoFile(images)) && ImageCount(IcoFile(images)) == |images|
    ensures forall i :: 0 <= i < |images| ==> EntryOfImage(IcoFile(images), i) == images[i]
  {
    hide HoldsBytes, IcoDirectory, IcoData, U16, U32, IcoFile;
    var b, n := IcoFile(images), |images|;
    IcoHeader(images);
    forall i | 0 <= i < n
      ensures 6 + 16 * i + 16 <= |b| && ImageOk(b, i) && EntryOfImage(b, i) == images[i]
    {
      DirectoryHeld(b, images, n, i);
      DataHeld(b, images, n, i);
      SliceHeld(b, DataAt(images, i), images[i].data);
      assert images[i] in images;
      IcoEntryRead(b, 6 + 16 * i, images[i], DataAt(images, i));
    }
  }

  // ----- the group -----

  function GroupEntry(e: IconEntry, id: u16): (b: seq<byte>)
    requires |e.data| < 0x1_0000_0000
    ensures |b| == 14
  {
    [e.width, e.height, e.colors, 0] + Le16(e.planes) + Le16(e.bits) + Le32(|e.data|) + Le16(id)
  }

  // The entries of the images numbered from 1.
  function GroupEntries(entries: seq<IconEntry>): (b: seq<byte>)
    requires |entries| < 0x1_0000 && forall e :: e in entries ==> |e.data| < 0x1_0000_0000
    ensures |b| == 14 * |entries|
  {
    if entries == [] then []
    else
      var n := |entries| - 1;
      assert entries[n] in entries;
      GroupEntries(entries[..n]) + GroupEntry(entries[n], n + 1)
  }

  function GroupHeader(n: u16): (b: seq<byte>)
    ensures |b| == 6
  {
    Le16(0) + Le16(1) + Le16(n)
  }

  ghost function IconResource(e: IconEntry, i: nat): Resource
    requires i < 0xffff
  {
    Resource(3, i + 1, e.data)
  }

  method IconResources(ico: seq<byte>, groupID: u16) returns (r: Result<seq<Resource>>)
    ensures r.Ok? <==> Accepted(ico)
    ensures r.Ok? ==>
              var n := ImageCount(ico);
              && |r.value| == n + 1
              && (forall i :: 0 <= i < n ==> r.value[i] == IconResource(EntryOfImage(ico, i), i))
              && r.value[n].typ == 14 && r.value[n].id == groupID
              && GroupLists(r.value[n].data, ico)
  {
    hide U16, U32, GroupEntries, GroupHeader, GroupLists;
    CountBound(ico);
    var parsed := ParseICO(ico);
    if parsed.Err? {
      return Err(parsed.reason);
    }
    var entries := parsed.value;
    forall e | e in entries ensures |e.data| < 0x1_0000_0000 {
      var i :| 0 <= i < |entries| && entries[i] == e;
      ImageLength(ico, i);
    }
    var res, group := ListImages(entries);
    GroupListsAll(entries, ico);
    r := Ok(res + [Resource(RT_GROUP_ICON, groupID, group)]);
  }

  // The loop over the images.
  method ListImages(entries: seq<IconEntry>) returns (res: seq<Resource>, group: seq<byte>)
    requires |entries| < 0x1_0000 && forall e :: e in entries ==> |e.data| < 0x1_0000_0000
    ensures |res| == |entries| && forall k :: 0 <= k < |res| ==> res[k] == IconResource(entries[k], k)
    ensures group == GroupHeader(|entries|) + GroupEntries(entries)
  {
    hide Le16, Le32, GroupEntry, GroupHeader, GroupEntries;
    res, group := [], GroupHeader(|entries|);
    NoEntries();
    for i := 0 to |entries|
      invariant |res| == i && group == GroupHeader(|entries|) + GroupEntries(entries[..i])
      invariant forall k :: 0 <= k < i ==> res[k] == IconResource(entries[k], k)
    {
      var e, id := entries[i], Trunc16(i + 1);
      assert id == i + 1 && e in entries;
      group := AppendEntry(group, e, id);
      SnocEntries(entries, i);
      Assoc(GroupHeader(|entries|), GroupEntries(entries[..i]), GroupEntry(e, id));
      res := res + [Resource(RT_ICON, id, e.data)];
    }
    assert entries[..|entries|] == entries;
  }

  lemma NoEntries()
    ensures GroupEntries([]) == []
  {
  }

  lemma ImageLength(b: seq<byte>, i: nat)
    requires 6 + 16 * i + 16 <= |b| && ImageOk(b, i)
    ensures |EntryOfImage(b, i).data| == ImageSize(b, i) < 0x1_0000_0000
  {
    hide U16, U32;
  }

  lemma CountBound(b: seq<byte>)
    ensures |b| >= 6 ==> ImageCount(b) < 0x1_0000
  {
  }

  method AppendEntry(group: seq<byte>, e: IconEntry, id: u16) returns (out: seq<byte>)
    requires |e.data| < 0x1_0000_0000
    ensures out == group + GroupEntry(e, id)
  {
    hide Le16, Le32;
    out := group + [e.width];
    out := out + [e.height];
    out := out + [e.colors];
    out := out + [0];
    assert out == group + [e.width, e.height, e.colors, 0];
    out := out + Le16(e.planes);
    out := out + Le16(e.bits);
    out := out + Le32(|e.data|);
    out := out + Le16(id);
  }

  lemma SnocEntries(entries: seq<IconEntry>, i: nat)
    requires i < |entries| < 0x1_0000 && forall e :: e in entries ==> |e.data| < 0x1_0000_0000
    ensures entries[i] in entries
    ensures GroupEntries(entries[..i + 1]) == GroupEntries(entries[..i]) + GroupEntry(entries[i], i + 1)
  {
    hide GroupEntry;
    assert entries[..i + 1][..i] == entries[..i];
  }

  // ----- what a reader of the group sees -----

  // The i-th entry names id i + 1 and describes image i of the file.
  ghost predicate Describes(group: seq<byte>, ico: seq<byte>, i: nat)
    requires 6 + 16 * i + 16 <= |ico| && ImageOk(ico, i)
  {
    var at, d := 6 + 14 * i, 6 + 16 * i;
    && at + 14 <= |group|
    && group[at] == ico[d] && group[at + 1] == ico[d + 1] && group[at + 2] == ico[d + 2] && group[at + 3] == 0
    && U16(group, at + 4) == U16(ico, d + 4) && U16(group, at + 6) == U16(ico, d + 6)
    && U32(group, at + 8) == ImageSize(ico, i)
    && U16(group, at + 12) == i + 1
  }

  ghost predicate GroupLists(group: seq<byte>, ico: seq<byte>)
    requires Accepted(ico)
  {
    && |group| == 6 + 14 * ImageCount(ico)
    && U16(group, 0) == 0 && U16(group, 2) == 1 && U16(group, 4) == ImageCount(ico)
    && forall i :: 0 <= i < ImageCount(ico) ==> Describes(group, ico, i)
  }

  lemma {:induction false} EntriesHeld(group: seq<byte>, at: nat, entries: seq<IconEntry>, k: nat)
    requires |entries| < 0x1_0000 && forall e :: e in entries ==> |e.data| < 0x1_0000_0000
    requires HoldsBytes(group, at, GroupEntries(entries)) && k < |entries|
    ensures entries[k] in entries && HoldsBytes(group, at + 14 * k, GroupEntry(entries[k], k + 1))
  {
    hide HoldsBytes, GroupEntry;
    var n := |entries| - 1;
    SnocEntries(entries, n);
    assert entries[..n + 1] == entries;
    HoldsSplit(group, at, GroupEntries(entries[..n]), GroupEntry(entries[n], n + 1));
    if k < n {
      EntriesHeld(group, at, entries[..n], k);
    }
  }

  lemma EntryHeld(group: seq<byte>, at: nat, e: IconEntry, id: u16)
    requires |e.data| < 0x1_0000_0000 && HoldsBytes(group, at, GroupEntry(e, id))
    ensures HoldsBytes(group, at, [e.width, e.height, e.colors, 0])
    ensures Holds16(group, at + 4, e.planes) && Holds16(group, at + 6, e.bits)
    ensures Holds32(group, at + 8, |e.data|) && Holds16(group, at + 12, id)
  {
    hide HoldsBytes, Holds16, Holds32, Le16, Le32;
    var a, b, c, d := [e.width, e.height, e.colors, 0], Le16(e.planes), Le16(e.bits), Le32(|e.data|);
    HoldsSplit(group, at, a + b + c + d, Le16(id));
    HoldsSplit(group, at, a + b + c, d);
    HoldsSplit(group, at, a + b, c);
    HoldsSplit(group, at, a, b);
    HeldFields(group, at + 4, e.planes);
    HeldFields(group, at + 6, e.bits);
    HeldFields(group, at + 8, |e.data|);
    HeldFields(group, at + 12, id);
  }

  lemma FourHeld(s: seq<byte>, at: nat, a: byte, b: byte, c: byte, d: byte)
    requires HoldsBytes(s, at, [a, b, c, d])
    ensures at + 4 <= |s| && s[at] == a && s[at + 1] == b && s[at + 2] == c && s[at + 3] == d
  {
    var q := s[at..at + 4];
    assert q[0] == a && q[1] == b && q[2] == c && q[3] == d;
  }

  lemma EntryDescribes(group: seq<byte>, ico: seq<byte>, i: nat)
    requires 6 + 16 * i + 16 <= |ico| && ImageOk(ico, i) && i < 0xffff
    requires |EntryOfImage(ico, i).data| < 0x1_0000_0000
    requires HoldsBytes(group, 6 + 14 * i, GroupEntry(EntryOfImage(ico, i), i + 1))
    ensures Describes(group, ico, i)
  {
    hide HoldsBytes, GroupEntry;
    var e, at := EntryOfImage(ico, i), 6 + 14 * i;
    EntryHeld(group, at, e, i + 1);
    FourHeld(group, at, e.width, e.height, e.colors, 0);
  }

  lemma HeaderHeld(group: seq<byte>, n: u16)
    requires HoldsBytes(group, 0, GroupHeader(n))
    ensures Holds16(group, 0, 0) && Holds16(group, 2, 1) && Holds16(group, 4, n)
  {
    hide HoldsBytes, Holds16, Le16;
    HoldsSplit(group, 0, Le16(0) + Le16(1), Le16(n));
    HoldsSplit(group, 0, Le16(0), Le16(1));
    HeldFields(group, 0, 0);
    HeldFields(group, 2, 1);
    HeldFields(group, 4, n);
  }

  lemma GroupListsAll(entries: seq<IconEntry>, ico: seq<byte>)
    requires Accepted(ico) && |entries| == ImageCount(ico) < 0x1_0000
    requires forall e :: e in entries ==> |e.data| < 0x1_0000_0000
    requires forall i :: 0 <= i < |entries| ==> entries[i] == EntryOfImage(ico, i)
    ensures GroupLists(GroupHeader(|entries|) + GroupEntries(entries), ico)
  {
    hide HoldsBytes, GroupEntry, GroupEntries, GroupHeader, Describes, EntryOfImage, ImageOk;
    var group := GroupHeader(|entries|) + GroupEntries(entries);
    WholeHeld(group);
    HoldsSplit(group, 0, GroupHeader(|entries|), GroupEntries(entries));
    HeaderHeld(group, |entries|);
    forall i | 0 <= i < ImageCount(ico) ensures Describes(group, ico, i) {
      EntriesHeld(group, 6, entries, i);
      EntryDescribes(group, ico, i);
    }
  }

  // ----- through the resource section -----

  // The resources of a run: those of the icon and others of other types.
  ghost predicate IconRun(all: seq<Resource>, ico: seq<byte>, groupID: u16, group: seq<byte>, others: seq<Resource>)
    requires Accepted(ico)
  {
    var n := ImageCount(ico);
    && |all| == n + 1 + |others|
    && (forall i :: 0 <= i < n ==> i < 0xffff && all[i] == IconResource(EntryOfImage(ico, i), i))
    && all[n] == Resource(RT_GROUP_ICON, groupID, group)
    && all[n + 1..] == others
    && Distinct(others)
    && forall r :: r in others ==> r.typ != RT_ICON && r.typ != RT_GROUP_ICON
  }

  lemma RunAt(all: seq<Resource>, ico: seq<byte>, groupID: u16, group: seq<byte>, others: seq<Resource>, k: nat)
    requires Accepted(ico) && IconRun(all, ico, groupID, group, others) && k < |all|
    ensures k < ImageCount(ico) ==> all[k].typ == RT_ICON && all[k].id == k + 1
    ensures k == ImageCount(ico) ==> all[k].typ == RT_GROUP_ICON
    ensures k > ImageCount(ico) ==>
              var o := k - ImageCount(ico) - 1;
              o < |others| && all[k] == others[o] && all[k].typ != RT_ICON && all[k].typ != RT_GROUP_ICON
  {
    hide ImageCount, EntryOfImage, ImageOk, Distinct;
    var n := ImageCount(ico);
    if k > n {
      assert all[k] == all[n + 1..][k - n - 1];
      assert others[k - n - 1] in others;
    } else if k < n {
      assert all[k] == IconResource(EntryOfImage(ico, k), k);
    }
  }

  lemma RunDistinct(all: seq<Resource>, ico: seq<byte>, groupID: u16, group: seq<byte>, others: seq<Resource>)
    requires Accepted(ico) && IconRun(all, ico, groupID, group, others)
    ensures Distinct(all)
  {
    hide IconRun, Accepted, ImageCount;
    OthersDistinct(all, ico, groupID, group, others);
    forall i, j | 0 <= i < j < |all| ensures all[i].typ != all[j].typ || all[i].id != all[j].id {
      RunAt(all, ico, groupID, group, others, i);
      RunAt(all, ico, groupID, group, others, j);
    }
  }

  lemma OthersDistinct(all: seq<Resource>, ico: seq<byte>, groupID: u16, group: seq<byte>, others: seq<Resource>)
    requires Accepted(ico) && IconRun(all, ico, groupID, group, others)
    ensures Distinct(others)
  {
    hide ImageCount, EntryOfImage, ImageOk, Distinct;
  }

  // Whoever reads the group from the section and follows its i-th entry gets image i of the
  // file, byte for byte, with the length the entry declares.
  lemma IconsEndToEnd(all: seq<Resource>, ico: seq<byte>, groupID: u16, group: seq<byte>, others: seq<Resource>,
                      p: Plan, s: seq<byte>, base: nat, i: nat)
    requires Accepted(ico) && IconRun(all, ico, groupID, group, others) && GroupLists(group, ico)
    requires p.Valid() && Fits(p, base) && p.LaidOut(s, base) && SortOf(p.sorted, all)
    requires i < ImageCount(ico)
    ensures Lookup(s, base, RT_GROUP_ICON, groupID) == Some(group)
    ensures 6 + 14 * i + 14 <= |group|
    ensures var id := U16(group, 6 + 14 * i + 12);
            && Lookup(s, base, RT_ICON, id) == Some(ImageBytes(ico, i))
            && |ImageBytes(ico, i)| == U32(group, 6 + 14 * i + 8)
  {
    hide Lookup, Fits, Grouped, Plan.LaidOut, SortOf, Distinct, U16, U32;
    RunDistinct(all, ico, groupID, group, others);
    LookupGives(s, p, base, all, i);
    LookupGives(s, p, base, all, ImageCount(ico));
    assert Describes(group, ico, i);
  }
}
