/** The note editor of the phone preview: the weighted length shown beside the title and body,
    the placeholder image picked from the title, the split of the content into a title line and
    a body and its rebuilding after an edit, the grouping of drafts and published notes, and the
    checks made before publishing. */
module MobilePreview {
  import opened Wrappers
  import opened Strings
  import opened Types
  import TextHash
  import Seqs

  // ---------------------------------------------------------------- weighted length

  /** Code units 0..127 weigh half a unit. */
  predicate IsAscii(unit: CodeUnit) {
    unit <= 127
  }

  function AsciiCount(u: seq<CodeUnit>): (n: nat)
    ensures n <= |u|
  {
    if u == [] then 0 else AsciiCount(u[..|u| - 1]) + (if IsAscii(u[|u| - 1]) then 1 else 0)
  }

  /** The weighted length of a sequence of code units: one unit per non-ASCII code unit, half a
      unit per ASCII one, the total rounded up. */
  function UnitsWeight(u: seq<CodeUnit>): nat {
    (|u| - AsciiCount(u)) + (AsciiCount(u) + 1) / 2
  }

  /** The weighted length of a string, over the UTF-16 code units `charCodeAt` reads: a
      character above U+FFFF is two non-ASCII units and weighs 2. */
  function Weight(s: string): nat {
    UnitsWeight(Utf16(s))
  }

  /** `getLength`: the loop adds halves, counted here as whole numbers of halves, and the total
      is rounded up at the end. */
  method GetLength(str: string) returns (len: nat)
    ensures len == Weight(str)
  {
    if str == [] {
      return 0;
    }
    var units := Utf16(str);
    var halves := 0;
    for i := 0 to |units|
      invariant halves == 2 * (i - AsciiCount(units[..i])) + AsciiCount(units[..i])
    {
      assert units[..i + 1][..i] == units[..i];
      if IsAscii(units[i]) {
        halves := halves + 1;
      } else {
        halves := halves + 2;
      }
    }
    assert units[..|units|] == units;
    len := (halves + 1) / 2;
  }

  lemma {:induction false} AsciiCountAppend(s: seq<CodeUnit>, t: seq<CodeUnit>)
    ensures AsciiCount(s + t) == AsciiCount(s) + AsciiCount(t)
    decreases |t|
  {
    if t != [] {
      var t' := t[..|t| - 1];
      assert (s + t)[..|s + t| - 1] == s + t';
      AsciiCountAppend(s, t');
    } else {
      assert s + t == s;
    }
  }

  /** The weighted length lies between half the code-unit count and the code-unit count, and is
      0 only for the empty string. */
  lemma WeightBounds(s: string)
    ensures Weight(s) <= |Utf16(s)|
    ensures |Utf16(s)| <= 2 * Weight(s)
    ensures Weight(s) == 0 <==> s == []
  {
  }

  /** Appending text never shortens the weighted length. */
  lemma WeightMonotone(s: string, t: string)
    ensures Weight(s) <= Weight(s + t)
  {
    Utf16Append(s, t);
    AsciiCountAppend(Utf16(s), Utf16(t));
  }

  /** An ASCII character adds at most one unit (two of them add exactly one), any other
      character of the Basic Multilingual Plane one unit, and a character above U+FFFF two. */
  lemma {:induction false} WeightOfChar(s: string, c: char)
    ensures c as int <= 127 ==> Weight(s) <= Weight(s + [c]) <= Weight(s) + 1
    ensures 127 < c as int < 0x1_0000 ==> Weight(s + [c]) == Weight(s) + 1
    ensures c as int >= 0x1_0000 ==> Weight(s + [c]) == Weight(s) + 2
  {
    Utf16Append(s, [c]);
    var u := CharUnits(c);
    assert Utf16([c]) == u by {
      assert [c][1..] == [];
    }
    var w := Utf16(s);
    if |u| == 2 {
      assert !IsAscii(u[0]) && !IsAscii(u[1]);
      assert u == [u[0], u[1]];
      assert AsciiCount([u[0]]) == 0 by {
        assert [u[0]][..0] == [];
      }
      assert AsciiCount(u) == 0 by {
        assert u[..1] == [u[0]];
      }
      UnitsWeightNonAscii(w, u);
    } else {
      assert u == [u[0]];
      assert AsciiCount(u) == (if IsAscii(u[0]) then 1 else 0) by {
        assert u[..0] == [];
      }
      if c as int <= 127 {
        UnitsWeightAscii(w, u[0]);
      } else {
        UnitsWeightNonAscii(w, u);
      }
    }
  }

  /** Code units without an ASCII one each add one unit. */
  lemma UnitsWeightNonAscii(w: seq<CodeUnit>, u: seq<CodeUnit>)
    requires AsciiCount(u) == 0
    ensures UnitsWeight(w + u) == UnitsWeight(w) + |u|
  {
    AsciiCountAppend(w, u);
  }

  /** One ASCII code unit adds half a unit, rounded: nothing or one. */
  lemma UnitsWeightAscii(w: seq<CodeUnit>, x: CodeUnit)
    requires IsAscii(x)
    ensures UnitsWeight(w) <= UnitsWeight(w + [x]) <= UnitsWeight(w) + 1
  {
    AsciiCountAppend(w, [x]);
    assert AsciiCount([x]) == 1 by {
      assert [x][..0] == [];
    }
  }

  // ---------------------------------------------------------------- placeholder image

  /** The placeholder pool, seven entries. */
  const Pool: seq<string> := [
    "https://images.unsplash.com/photo-1618331835717-801e976710b2?q=80&w=1000&auto=format&fit=crop",
    "https://images.unsplash.com/photo-1507525428034-b723cf961d3e?q=80&w=1000&auto=format&fit=crop",
    "https://images.unsplash.com/photo-1493663284031-b7e3aefcae8e?q=80&w=1000&auto=format&fit=crop",
    "https://images.unsplash.com/photo-1516483638261-f4dbaf036963?q=80&w=1000&auto=format&fit=crop",
    "https://images.unsplash.com/photo-1534528741775-53994a69daeb?q=80&w=1000&auto=format&fit=crop",
    "https://images.unsplash.com/photo-1524504388940-b1c1722653e1?q=80&w=1000&auto=format&fit=crop",
    "https://images.unsplash.com/photo-1483985988355-763728e1935b?q=80&w=1000&auto=format&fit=crop"
  ]

  /** `seed || 'default'`. */
  function SafeSeed(seed: string): (r: string)
    ensures r != []
    ensures seed != [] ==> r == seed
  {
    if seed == [] then "default" else seed
  }

  /** The pool entry a seed selects. */
  function PlaceholderFor(seed: string): (url: string)
    ensures url in Pool
  {
    Pool[TextHash.Bucket(SafeSeed(seed), |Pool|)]
  }

  /** `getRandomImage`: hash the seed, then index the pool. */
  method GetRandomImage(seed: string) returns (url: string)
    ensures url == PlaceholderFor(seed)
    ensures url in Pool
  {
    var safeSeed := SafeSeed(seed);
    var hash := TextHash.Hash(safeSeed);
    var index := TextHash.Abs(hash) % |Pool|;
    url := Pool[index];
  }

  /** An empty seed picks the same image as "default". */
  lemma EmptySeedIsDefault()
    ensures PlaceholderFor("") == PlaceholderFor("default")
  {
  }

  // ---------------------------------------------------------------- title and body

  /** The title: `content.split('\n')[0]`, the text before the first line break. */
  function Title(content: string): (t: string)
    ensures t <= content
    ensures '\n' !in t
    ensures Contains(content, "\n") ==> t == content[..IndexOf(content, "\n")]
    ensures !Contains(content, "\n") ==> t == content
  {
    SplitFirst(content, "\n");
    var t := Split(content, "\n")[0];
    assert '\n' !in t by {
      forall k | 0 <= k < |t| ensures t[k] != '\n' {
        assert !OccursAt(content, "\n", k);
        assert content[k..k + 1] == [content[k]];
      }
    }
    t
  }

  /** The body: everything after the first line break, or "" without one. */
  function FullBody(content: string): (b: string)
    ensures !Contains(content, "\n") ==> b == []
  {
    if Contains(content, "\n") then content[IndexOf(content, "\n") + 1..] else []
  }

  /** The content is the title, then a line break and the body when there is a line break. */
  lemma ContentIsTitleAndBody(content: string)
    ensures Contains(content, "\n") ==> content == Title(content) + "\n" + FullBody(content)
    ensures !Contains(content, "\n") ==> content == Title(content) && FullBody(content) == []
  {
    if Contains(content, "\n") {
      var i := IndexOf(content, "\n");
      assert content[i..i + 1] == "\n";
      assert content == content[..i] + content[i..i + 1] + content[i + 1..];
    }
  }

  /** Joining a title without line breaks to a body, then parsing, gives both back. */
  lemma ParseJoined(title: string, body: string)
    requires '\n' !in title
    ensures Title(title + "\n" + body) == title
    ensures FullBody(title + "\n" + body) == body
  {
    var s := title + "\n" + body;
    assert s[|title|..|title| + 1] == "\n";
    assert OccursAt(s, "\n", |title|);
    forall k | 0 <= k < |title| ensures !OccursAt(s, "\n", k) {
      assert s[k..k + 1] == [title[k]];
    }
  }

  /** Two line-break joins regroup. */
  lemma JoinRegroup(a: string, b: string, c: string)
    ensures (a + "\n" + b) + "\n" + c == a + "\n" + (b + "\n" + c)
  {
  }

  /** Whatever follows a line break never reaches the title; after a one-line title, it is
      the body. */
  lemma TitleOfJoin(a: string, b: string)
    ensures Title(a + "\n" + b) == Title(a)
    ensures '\n' !in a ==> FullBody(a + "\n" + b) == b
  {
    ContentIsTitleAndBody(a);
    if Contains(a, "\n") {
      assert a + "\n" + b == Title(a) + "\n" + (FullBody(a) + "\n" + b);
      ParseJoined(Title(a), FullBody(a) + "\n" + b);
    } else {
      ParseJoined(a, b);
    }
  }

  /** `handleTitleChange`: the new title line followed by the current body. The title read
      back is the first line of what was typed. */
  function TitleChanged(content: string, val: string): (r: string)
    ensures Title(r) == Title(val)
  {
    TitleOfJoin(val, FullBody(content));
    val + "\n" + FullBody(content)
  }

  /** A title edit keeps the body exactly, and the title reads back as typed when it has no
      line break. */
  lemma TitleChangeKeepsBody(content: string, val: string)
    requires '\n' !in val
    ensures Title(TitleChanged(content, val)) == val
    ensures FullBody(TitleChanged(content, val)) == FullBody(content)
  {
    ParseJoined(val, FullBody(content));
  }

  /** A typed title holding a line break: only its first line becomes the title, and the rest
      of it moves in front of the old body. */
  lemma TitleChangeWithBreak(content: string, val: string)
    requires Contains(val, "\n")
    ensures Title(TitleChanged(content, val)) == Title(val)
    ensures FullBody(TitleChanged(content, val)) == FullBody(val) + "\n" + FullBody(content)
  {
    ContentIsTitleAndBody(val);
    var t, b, c := Title(val), FullBody(val), FullBody(content);
    assert TitleChanged(content, val) == val + "\n" + c;
    JoinRegroup(t, b, c);
    ParseJoined(t, b + "\n" + c);
  }

  /** The footer is attached after a blank line, and only when there is one. */
  function FooterPart(footer: string): (r: string)
    ensures footer == [] <==> r == []
  {
    if footer != [] then "\n\n" + footer else []
  }

  /** `updateFullContent`: the title line, then the body and the footer. */
  function UpdateFullContent(title: string, newBody: string, footer: string): (r: string)
    ensures Title(r) == Title(title)
    ensures '\n' !in title ==> FullBody(r) == newBody + FooterPart(footer)
  {
    TitleOfJoin(title, newBody + FooterPart(footer));
    title + "\n" + (newBody + FooterPart(footer))
  }

  /** `handleBodyChange`: in custom mode the footer is re-attached, otherwise the typed body
      replaces the old one. */
  function BodyChanged(content: string, val: string, customMode: bool, customFooter: string): (r: string)
    ensures Title(r) == Title(content)
  {
    TitleOfJoin(Title(content), val);
    if customMode then UpdateFullContent(Title(content), val, customFooter)
    else Title(content) + "\n" + val
  }

  /** A body edit keeps the title, and the body reads back as typed (with the footer after a
      blank line in custom mode when the footer is not empty). */
  lemma BodyChangeKeepsTitle(content: string, val: string, customMode: bool, customFooter: string)
    ensures Title(BodyChanged(content, val, customMode, customFooter)) == Title(content)
    ensures FullBody(BodyChanged(content, val, customMode, customFooter)) ==
              if customMode then val + FooterPart(customFooter) else val
  {
    if customMode {
      ParseJoined(Title(content), val + FooterPart(customFooter));
    } else {
      ParseJoined(Title(content), val);
    }
  }

  // ---------------------------------------------------------------- grouping

  const PublishedGroup := "🚀 已发布"
  const UnsortedGroup := "📁 未分类草稿"

  /** The group of a draft: its persona, or the unsorted drafts. */
  function Category(d: NoteDraft): (k: string)
    ensures k != PublishedGroup
  {
    if d.personaName != [] then
      var k := "📂 " + d.personaName;
      assert k[0] != PublishedGroup[0];
      k
    else UnsortedGroup
  }

  datatype Item = DraftItem(draft: NoteDraft) | PublishedItem(record: PublishedRecord)

  /** The drafts of group `k`, in input order. */
  function DraftsIn(ds: seq<NoteDraft>, k: string): (r: seq<Item>)
    ensures |r| <= |ds|
    ensures forall x :: x in r ==> x.DraftItem? && x.draft in ds && Category(x.draft) == k
  {
    if ds == [] then []
    else DraftsIn(ds[..|ds| - 1], k) + (if Category(ds[|ds| - 1]) == k then [DraftItem(ds[|ds| - 1])] else [])
  }

  function PublishedItems(ps: seq<PublishedRecord>): (r: seq<Item>)
    ensures |r| == |ps|
    ensures forall i :: 0 <= i < |ps| ==> r[i] == PublishedItem(ps[i])
  {
    if ps == [] then [] else PublishedItems(ps[..|ps| - 1]) + [PublishedItem(ps[|ps| - 1])]
  }

  /** The content of group `k`: its drafts, and every published record in the published group. */
  function GroupOf(ds: seq<NoteDraft>, ps: seq<PublishedRecord>, k: string): (r: seq<Item>)
    ensures forall x :: x in r ==> (x.DraftItem? && x.draft in ds && Category(x.draft) == k) ||
                                   (x.PublishedItem? && k == PublishedGroup)
  {
    DraftsIn(ds, k) + (if k == PublishedGroup then PublishedItems(ps) else [])
  }

  /** The total size of the groups listed in `keys`. */
  function Total(groups: map<string, seq<Item>>, keys: seq<string>): nat {
    if keys == [] then 0
    else
      var k := keys[|keys| - 1];
      Total(groups, keys[..|keys| - 1]) + (if k in groups then |groups[k]| else 0)
  }

  predicate Distinct(keys: seq<string>) {
    forall i, j :: 0 <= i < j < |keys| ==> keys[i] != keys[j]
  }

  /** Appending to one listed group adds one to the total. */
  lemma {:induction false} TotalPush(groups: map<string, seq<Item>>, keys: seq<string>, k: string, x: Item)
    requires forall key :: key in keys ==> key in groups
    requires Distinct(keys) && k in groups
    ensures Total(groups[k := groups[k] + [x]], keys) == Total(groups, keys) + (if k in keys then 1 else 0)
    decreases |keys|
  {
    if keys != [] {
      var init := keys[..|keys| - 1];
      assert forall key :: key in init ==> key in keys;
      TotalPush(groups, init, k, x);
      assert k in keys <==> k in init || k == keys[|keys| - 1];
      if k == keys[|keys| - 1] {
        assert k !in init;
      }
    }
  }

  /** A new group added to the map leaves the total of the listed groups unchanged. */
  lemma {:induction false} TotalFresh(groups: map<string, seq<Item>>, keys: seq<string>, k: string, v: seq<Item>)
    requires forall key :: key in keys ==> key in groups
    requires k !in keys
    ensures Total(groups[k := v], keys) == Total(groups, keys)
    decreases |keys|
  {
    if keys != [] {
      TotalFresh(groups, keys[..|keys| - 1], k, v);
    }
  }

  /** The map and its key order agree: the keys listed once each, in insertion order. */
  ghost predicate Ordered(groups: map<string, seq<Item>>, order: seq<string>) {
    Distinct(order) && (forall k :: k in order <==> k in groups)
  }

  /** Filing one item: a new group at the end of the order, or a push onto an existing one. */
  method File(groups: map<string, seq<Item>>, order: seq<string>, k: string, x: Item)
    returns (groups': map<string, seq<Item>>, order': seq<string>)
    requires Ordered(groups, order)
    ensures Ordered(groups', order')
    ensures groups' == groups[k := (if k in groups then groups[k] else []) + [x]]
    ensures order' == if k in groups then order else order + [k]
    ensures Total(groups', order') == Total(groups, order) + 1
  {
    if k !in groups {
      groups' := groups[k := []];
      order' := order + [k];
      TotalFresh(groups, order, k, []);
      assert order'[..|order|] == order;
    } else {
      groups', order' := groups, order;
    }
    TotalPush(groups', order', k, x);
    groups' := groups'[k := groups'[k] + [x]];
  }

  /** The groups after the drafts `ds` are filed, each under its category. */
  function DraftGroups(ds: seq<NoteDraft>): (r: map<string, seq<Item>>)
    ensures forall k :: k in r ==> r[k] != []
    ensures forall k, x :: k in r && x in r[k] ==> x.DraftItem? && x.draft in ds && Category(x.draft) == k
  {
    if ds == [] then map[]
    else
      var g := DraftGroups(ds[..|ds| - 1]);
      var k := Category(ds[|ds| - 1]);
      g[k := (if k in g then g[k] else []) + [DraftItem(ds[|ds| - 1])]]
  }

  /** The categories of the drafts `ds` in the order of their first draft: the order in which
      the groups are created. */
  function DraftOrder(ds: seq<NoteDraft>): seq<string> {
    if ds == [] then []
    else
      var o := DraftOrder(ds[..|ds| - 1]);
      var k := Category(ds[|ds| - 1]);
      if k in o then o else o + [k]
  }

  /** The order lists each non-empty category once, and nothing else. */
  lemma {:induction false} DraftOrderMembers(ds: seq<NoteDraft>)
    ensures Distinct(DraftOrder(ds))
    ensures forall k :: k in DraftOrder(ds) <==> DraftsIn(ds, k) != []
    decreases |ds|
  {
    if ds != [] {
      DraftOrderMembers(ds[..|ds| - 1]);
    }
  }

  /** The draft groups are exactly the non-empty categories, each holding its drafts in order. */
  lemma {:induction false} DraftGroupsByCategory(ds: seq<NoteDraft>)
    ensures forall k :: k in DraftGroups(ds) <==> DraftsIn(ds, k) != []
    ensures forall k :: k in DraftGroups(ds) ==> DraftGroups(ds)[k] == DraftsIn(ds, k)
    decreases |ds|
  {
    if ds != [] {
      DraftGroupsByCategory(ds[..|ds| - 1]);
    }
  }

  /** Filing one draft after the drafts `prefix`. */
  method FileDraft(groups: map<string, seq<Item>>, order: seq<string>, ghost prefix: seq<NoteDraft>, d: NoteDraft)
    returns (groups': map<string, seq<Item>>, order': seq<string>)
    requires Ordered(groups, order) && groups == DraftGroups(prefix) && order == DraftOrder(prefix)
    ensures Ordered(groups', order') && groups' == DraftGroups(prefix + [d])
    ensures order' == DraftOrder(prefix + [d])
    ensures Total(groups', order') == Total(groups, order) + 1
  {
    assert (prefix + [d])[..|prefix|] == prefix;
    groups', order' := File(groups, order, Category(d), DraftItem(d));
  }

  /** The first `forEach` of `groupedItems`: each draft filed under its category. */
  method FileDrafts(drafts: seq<NoteDraft>) returns (groups: map<string, seq<Item>>, order: seq<string>)
    ensures Ordered(groups, order)
    ensures groups == DraftGroups(drafts)
    ensures order == DraftOrder(drafts)
    ensures Total(groups, order) == |drafts|
  {
    groups, order := map[], [];
    for i := 0 to |drafts|
      invariant Ordered(groups, order)
      invariant groups == DraftGroups(drafts[..i])
      invariant order == DraftOrder(drafts[..i])
      invariant Total(groups, order) == i
    {
      groups, order := FileDraft(groups, order, drafts[..i], drafts[i]);
      Seqs.TakeNext(drafts, i);
    }
    assert drafts[..|drafts|] == drafts;
  }

  /** The groups after the published records `ps` are appended to the published group. */
  function WithPublished(groups: map<string, seq<Item>>, ps: seq<PublishedRecord>): (r: map<string, seq<Item>>)
    ensures ps != [] ==>
              PublishedGroup in r &&
              |r[PublishedGroup]| == (if PublishedGroup in groups then |groups[PublishedGroup]| else 0) + |ps|
    ensures forall k :: k != PublishedGroup ==> (k in r <==> k in groups) && (k in groups ==> r[k] == groups[k])
  {
    if ps == [] then groups
    else groups[PublishedGroup := (if PublishedGroup in groups then groups[PublishedGroup] else []) + PublishedItems(ps)]
  }

  /** Appending one more record extends the published group by its item. */
  lemma WithPublishedPush(groups: map<string, seq<Item>>, ps: seq<PublishedRecord>, p: PublishedRecord)
    ensures var g := WithPublished(groups, ps);
            WithPublished(groups, ps + [p]) ==
            g[PublishedGroup := (if PublishedGroup in g then g[PublishedGroup] else []) + [PublishedItem(p)]]
  {
    var base := if PublishedGroup in groups then groups[PublishedGroup] else [];
    assert (ps + [p])[..|ps|] == ps;
    var items := PublishedItems(ps + [p]);
    assert items == PublishedItems(ps) + [PublishedItem(p)];
    var whole := groups[PublishedGroup := base + items];
    assert WithPublished(groups, ps + [p]) == whole;
    var g := WithPublished(groups, ps);
    if ps == [] {
      assert PublishedItems(ps) == [];
      assert g == groups;
      assert base + items == base + [PublishedItem(p)];
    } else {
      assert g == groups[PublishedGroup := base + PublishedItems(ps)];
      assert g[PublishedGroup] + [PublishedItem(p)] == base + items;
      assert g[PublishedGroup := base + items] == whole;
    }
  }

  /** Filing one published record after the records `prefix`. */
  method FileRecord(groups: map<string, seq<Item>>, order: seq<string>, ghost groups0: map<string, seq<Item>>,
                    ghost prefix: seq<PublishedRecord>, p: PublishedRecord)
    returns (groups': map<string, seq<Item>>, order': seq<string>)
    requires Ordered(groups, order) && groups == WithPublished(groups0, prefix)
    ensures Ordered(groups', order') && groups' == WithPublished(groups0, prefix + [p])
    ensures order' == if PublishedGroup in groups then order else order + [PublishedGroup]
    ensures Total(groups', order') == Total(groups, order) + 1
  {
    WithPublishedPush(groups0, prefix, p);
    groups', order' := File(groups, order, PublishedGroup, PublishedItem(p));
  }

  /** The second `forEach`: each published record appended to the published group. */
  method FilePublished(groups0: map<string, seq<Item>>, order0: seq<string>, published: seq<PublishedRecord>)
    returns (groups: map<string, seq<Item>>, order: seq<string>)
    requires Ordered(groups0, order0)
    ensures Ordered(groups, order)
    ensures groups == WithPublished(groups0, published)
    ensures order == if PublishedGroup in groups0 || published == [] then order0 else order0 + [PublishedGroup]
    ensures Total(groups, order) == Total(groups0, order0) + |published|
  {
    groups, order := groups0, order0;
    ghost var total0 := Total(groups0, order0);
    for j := 0 to |published|
      invariant Ordered(groups, order)
      invariant groups == WithPublished(groups0, published[..j])
      invariant order == if PublishedGroup in groups0 || j == 0 then order0 else order0 + [PublishedGroup]
      invariant Total(groups, order) == total0 + j
    {
      groups, order := FileRecord(groups, order, groups0, published[..j], published[j]);
      Seqs.TakeNext(published, j);
    }
    assert published[..|published|] == published;
  }

  /** `groupedItems`: the drafts by category, then the published records; groups appear in the
      order of their first item. */
  method GroupItems(drafts: seq<NoteDraft>, published: seq<PublishedRecord>)
    returns (groups: map<string, seq<Item>>, order: seq<string>)
    ensures Ordered(groups, order)
    ensures forall k :: k in groups <==> GroupOf(drafts, published, k) != []
    ensures forall k :: k in groups ==> groups[k] == GroupOf(drafts, published, k)
    ensures order == DraftOrder(drafts) + (if published == [] then [] else [PublishedGroup])
    ensures Total(groups, order) == |drafts| + |published|
  {
    var g, o := FileDrafts(drafts);
    DraftGroupsByCategory(drafts);
    NoDraftPublished(drafts);
    groups, order := FilePublished(g, o, published);
    GroupsAreGroupOf(drafts, published);
  }

  /** The filed groups are the groups `GroupOf` describes. */
  lemma GroupsAreGroupOf(ds: seq<NoteDraft>, ps: seq<PublishedRecord>)
    ensures var groups := WithPublished(DraftGroups(ds), ps);
            && (forall k :: k in groups <==> GroupOf(ds, ps, k) != [])
            && (forall k :: k in groups ==> groups[k] == GroupOf(ds, ps, k))
  {
    DraftGroupsByCategory(ds);
    NoDraftPublished(ds);
    var g := DraftGroups(ds);
    assert PublishedGroup !in g;
    if ps != [] {
      assert [] + PublishedItems(ps) == PublishedItems(ps);
    }
  }

  /** Every draft lands in the group of its category, and no draft lands in the published
      group. */
  lemma {:induction false} DraftFiledByCategory(ds: seq<NoteDraft>, i: nat)
    requires i < |ds|
    ensures DraftItem(ds[i]) in DraftsIn(ds, Category(ds[i]))
    decreases |ds|
  {
    if i < |ds| - 1 {
      assert ds[..|ds| - 1][i] == ds[i];
      DraftFiledByCategory(ds[..|ds| - 1], i);
    }
  }

  /** The published group holds every published record, in order, and no draft. */
  lemma PublishedGroupIsRecords(ds: seq<NoteDraft>, ps: seq<PublishedRecord>)
    ensures GroupOf(ds, ps, PublishedGroup) == PublishedItems(ps)
  {
    NoDraftPublished(ds);
  }

  lemma {:induction false} NoDraftPublished(ds: seq<NoteDraft>)
    ensures DraftsIn(ds, PublishedGroup) == []
    decreases |ds|
  {
    if ds != [] {
      NoDraftPublished(ds[..|ds| - 1]);
    }
  }

  // ---------------------------------------------------------------- publishing

  const EmptyTitle := "标题不能为空"
  const EmptyBody := "正文不能为空"

  /** What `handlePublish` does before the request: refuse, or the images to send. */
  datatype PublishPlan = Refused(message: string) | Send(images: seq<string>)

  /** The checks of `handlePublish`: a blank title, then a blank displayed body, refuse; with no
      images the placeholder for the title is used, alone. */
  function PlanPublish(title: string, displayBody: string, images: seq<string>): (r: PublishPlan)
    ensures r.Refused? <==> IsBlank(title) || IsBlank(displayBody)
    ensures IsBlank(title) ==> r == Refused(EmptyTitle)
    ensures !IsBlank(title) && IsBlank(displayBody) ==> r == Refused(EmptyBody)
    ensures r.Send? && images != [] ==> r.images == images
    ensures r.Send? && images == [] ==> r.images == [PlaceholderFor(title)] && r.images[0] in Pool
  {
    if IsBlank(title) then Refused(EmptyTitle)
    else if IsBlank(displayBody) then Refused(EmptyBody)
    else if images == [] then Send([PlaceholderFor(SafeSeed(title))])
    else Send(images)
  }
}
