/** Normalizing the items of a bookmark import. URL parsing is a parameter. */
module BookmarkNormalize {
  import opened BookmarkImport
  import opened BookmarkTree
  import opened GoText
  import opened Wrappers

  datatype RawItem = RawItem(kind: string, title: string, url: string, icon: string, children: seq<RawItem>)

  const MAX_TITLE_LENGTH := 255
  const MAX_URL_LENGTH := 2048

  /** What url.Parse makes of a text and String prints of it again, or None. */
  type UrlParser = string -> Option<string>

  /** Bookmark urls lose query and fragment before they are printed, icon urls the fragment only. */
  datatype Parsers = Parsers(url: UrlParser, icon: UrlParser)

  /** Escaped paths have no blanks; nothing is said about lengths, as escaping makes texts longer. */
  ghost predicate IsUrlParser(parse: UrlParser) {
    forall s | parse(s).Some? ::
      var printed := parse(s).value;
      printed != "" && Trimmed(printed) && parse(printed) == Some(printed)
  }

  /** A query is printed as it is, so what stood before a fragment may end in blanks. */
  ghost predicate IsIconParser(parse: UrlParser) {
    forall s | parse(s).Some? ::
      var printed := parse(s).value;
      printed != "" && '#' !in printed && parse(printed) == Some(printed)
          && (Trimmed(s) && '#' !in s ==> Trimmed(printed))
  }

  ghost predicate AreParsers(parse: Parsers) {
    IsUrlParser(parse.url) && IsIconParser(parse.icon)
  }

  function NormalizeKind(raw: string): Option<Kind> {
    var kind := ToLower(TrimSpace(raw));
    if kind == "" || kind == "url" then Some(Url) else if kind == "folder" then Some(Folder) else None
  }

  function NormalizeTitle(raw: string): Option<string> {
    var title := TrimSpace(raw);
    if title == "" || |title| > MAX_TITLE_LENGTH then None else Some(title)
  }

  /** The length is that of the text that comes in, in bytes; the column counts what is printed, in characters. */
  function NormalizeUrl(raw: string, parse: UrlParser): Option<string> {
    var url := TrimSpace(raw);
    if url == "" || ByteLength(url) > MAX_URL_LENGTH then None else parse(url)
  }

  /** The url of an item of the given kind: required for a url item, refused for a folder. */
  function NormalizeUrlOf(kind: Kind, raw: string, parse: Parsers): Option<string> {
    if kind.Url? then NormalizeUrl(raw, parse.url) else if TrimSpace(raw) == "" then Some("") else None
  }

  function NormalizeIcon(raw: string, parse: Parsers): Option<string> {
    if TrimSpace(raw) == "" then Some("") else NormalizeUrl(raw, parse.icon)
  }

  /** normalizeImportBrowserBookmarkItem as a function. */
  function NormalItem(raw: RawItem, parse: Parsers): Option<Item>
    decreases raw
  {
    var kind := NormalizeKind(raw.kind);
    if kind.None? then None
    else
      var (title, url, icon) :=
          (NormalizeTitle(raw.title), NormalizeUrlOf(kind.value, raw.url, parse), NormalizeIcon(raw.icon, parse));
      if title.None? || url.None? || icon.None? || (raw.children != [] && kind.value.Url?) then None
      else
        var children := NormalItems(raw.children, parse);
        if children.None? then None else Some(Item(kind.value, title.value, url.value, icon.value, children.value))
  }

  function NormalItems(raws: seq<RawItem>, parse: Parsers): (items: Option<seq<Item>>)
    ensures items.Some? ==> |items.value| == |raws|
    decreases raws
  {
    if raws == [] then Some([])
    else
      var (earlier, last) := (NormalItems(raws[..|raws| - 1], parse), NormalItem(raws[|raws| - 1], parse));
      if earlier.None? || last.None? then None else Some(earlier.value + [last.value])
  }

  /** What the import relies on: titles within their length, no url on a folder, children only under folders. */
  predicate ValidItem(item: Item)
    decreases item
  {
    && Trimmed(item.title) && 0 < |item.title| <= MAX_TITLE_LENGTH
    && (item.kind.Url? ==> item.children == [])
    && (item.kind.Folder? ==> item.url == "")
    && ValidItems(item.children)
  }

  predicate ValidItems(items: seq<Item>)
    decreases items
  {
    forall i | 0 <= i < |items| :: ValidItem(items[i])
  }

  lemma {:induction false} NormalIsValid(raw: RawItem, parse: Parsers)
    requires NormalItem(raw, parse).Some?
    ensures ValidItem(NormalItem(raw, parse).value)
    decreases raw, 0
  {
    hide NormalItems, ValidItems, NormalizeKind, NormalizeTitle, NormalizeUrl, NormalizeIcon;
    NormalsAreValid(raw.children, parse);
    TitleIsValid(raw.title);
  }

  lemma TitleIsValid(raw: string)
    requires NormalizeTitle(raw).Some?
    ensures Trimmed(NormalizeTitle(raw).value) && 0 < |NormalizeTitle(raw).value| <= MAX_TITLE_LENGTH
  {
  }

  lemma NormalItemsLast(raws: seq<RawItem>, parse: Parsers)
    requires raws != [] && NormalItems(raws, parse).Some?
    ensures var (earlier, last) := (NormalItems(raws[..|raws| - 1], parse), NormalItem(raws[|raws| - 1], parse));
            earlier.Some? && last.Some? && NormalItems(raws, parse).value == earlier.value + [last.value]
  {
    hide NormalItem;
  }

  lemma {:induction false} NormalsAreValid(raws: seq<RawItem>, parse: Parsers)
    requires NormalItems(raws, parse).Some?
    ensures ValidItems(NormalItems(raws, parse).value)
    decreases raws, 1
  {
    hide NormalItem, ValidItem, NormalItems;
    if raws != [] {
      NormalItemsLast(raws, parse);
      NormalsAreValid(raws[..|raws| - 1], parse);
      NormalIsValid(raws[|raws| - 1], parse);
    }
  }

  // ----- which items are accepted -----

  predicate IsUrl(raw: string, parse: UrlParser) {
    TrimSpace(raw) != "" && ByteLength(TrimSpace(raw)) <= MAX_URL_LENGTH && parse(TrimSpace(raw)).Some?
  }

  /** A known kind, a title that is neither blank nor too long, a url exactly where one belongs, an icon that is
      blank or a url, and children under folders only. */
  predicate AcceptableAlone(raw: RawItem, parse: Parsers) {
    var kind := ToLower(TrimSpace(raw.kind));
    && kind in {"", "url", "folder"}
    && 0 < |TrimSpace(raw.title)| <= MAX_TITLE_LENGTH
    && (if kind == "folder" then TrimSpace(raw.url) == "" else IsUrl(raw.url, parse.url) && raw.children == [])
    && (TrimSpace(raw.icon) == "" || IsUrl(raw.icon, parse.icon))
  }

  /** Acceptable at every depth. */
  predicate Acceptable(raw: RawItem, parse: Parsers)
    decreases raw
  {
    AcceptableAlone(raw, parse) && AllAcceptable(raw.children, parse)
  }

  predicate AllAcceptable(raws: seq<RawItem>, parse: Parsers)
    decreases raws
  {
    forall i | 0 <= i < |raws| :: Acceptable(raws[i], parse)
  }

  lemma ChildlessExactly(raw: RawItem, parse: Parsers)
    ensures AcceptableAlone(raw, parse) <==>
              var kind := NormalizeKind(raw.kind);
              && kind.Some? && NormalizeTitle(raw.title).Some? && NormalizeUrlOf(kind.value, raw.url, parse).Some?
              && NormalizeIcon(raw.icon, parse).Some? && (raw.children == [] || kind.value.Folder?)
  {
    hide TrimSpace, ToLower;
  }

  /** A list has a normal form exactly when each item has, and it is the list of theirs in order. */
  lemma {:induction false} NormalItemsPointwise(raws: seq<RawItem>, parse: Parsers)
    ensures NormalItems(raws, parse).Some? <==> forall i | 0 <= i < |raws| :: NormalItem(raws[i], parse).Some?
    ensures NormalItems(raws, parse).Some? ==>
              forall i | 0 <= i < |raws| :: NormalItem(raws[i], parse) == Some(NormalItems(raws, parse).value[i])
  {
    hide NormalItem;
    if raws != [] {
      NormalItemsPointwise(raws[..|raws| - 1], parse);
    }
  }

  /** An item is normalized exactly when it is acceptable at every depth. */
  lemma {:induction false} AcceptedExactly(raw: RawItem, parse: Parsers)
    ensures NormalItem(raw, parse).Some? <==> Acceptable(raw, parse)
    decreases raw, 0
  {
    AllAcceptedExactly(raw.children, parse);
    ChildlessExactly(raw, parse);
    hide NormalItems, AllAcceptable, AcceptableAlone, NormalizeKind, NormalizeTitle, NormalizeUrlOf, NormalizeIcon;
  }

  lemma {:induction false} AllAcceptedExactly(raws: seq<RawItem>, parse: Parsers)
    ensures NormalItems(raws, parse).Some? <==> AllAcceptable(raws, parse)
    decreases raws, 1
  {
    hide NormalItem, NormalItems, Acceptable;
    NormalItemsPointwise(raws, parse);
    forall i | 0 <= i < |raws| ensures NormalItem(raws[i], parse).Some? <==> Acceptable(raws[i], parse) {
      AcceptedExactly(raws[i], parse);
    }
  }

  // ----- when normal items are their own normal form -----

  function AsRaw(item: Item): RawItem
    decreases item, 0
  {
    RawItem(if item.kind.Url? then "url" else "folder", item.title, item.url, item.icon, AsRaws(item.children))
  }

  function AsRaws(items: seq<Item>): (raws: seq<RawItem>)
    ensures |raws| == |items|
    decreases items, 1
  {
    if items == [] then [] else AsRaws(items[..|items| - 1]) + [AsRaw(items[|items| - 1])]
  }

  /** The printed texts would pass once more: none has outgrown the limit, and no icon ends in blanks. */
  predicate PassesAlone(item: Item) {
    ByteLength(item.url) <= MAX_URL_LENGTH && ByteLength(item.icon) <= MAX_URL_LENGTH && Trimmed(item.icon)
  }

  predicate Passes(item: Item)
    decreases item
  {
    PassesAlone(item) && AllPass(item.children)
  }

  predicate AllPass(items: seq<Item>)
    decreases items
  {
    forall i | 0 <= i < |items| :: Passes(items[i])
  }

  lemma KindTwice(kind: Kind)
    ensures NormalizeKind(if kind.Url? then "url" else "folder") == Some(kind)
  {
    assert Trimmed("url") && Trimmed("folder");
    assert ToLower("url") == "url";
    assert ToLower("folder") == "folder";
  }

  lemma TitleTwice(raw: string)
    requires NormalizeTitle(raw).Some?
    ensures NormalizeTitle(NormalizeTitle(raw).value) == NormalizeTitle(raw)
  {
  }

  /** A printed url of an item of this kind: proper where one belongs, and back again unless it has become too long. */
  lemma UrlTwice(kind: Kind, raw: string, parse: Parsers)
    requires IsUrlParser(parse.url) && NormalizeUrlOf(kind, raw, parse).Some?
    ensures var url := NormalizeUrlOf(kind, raw, parse).value;
            && Trimmed(url) && (kind.Url? <==> url != "")
            && (NormalizeUrlOf(kind, url, parse) == Some(url) <==> ByteLength(url) <= MAX_URL_LENGTH)
  {
    var url := NormalizeUrlOf(kind, raw, parse).value;
    assert Trimmed("") && ByteLength("") == 0;
    assert kind.Url? ==> parse.url(TrimSpace(raw)) == Some(url);
    assert Trimmed(url) && TrimSpace(url) == url;
    hide TrimSpace, Trimmed, ByteLength;
  }

  /** A blank end is lost the second time, as only a fragment leaves one. */
  lemma IconTwice(raw: string, parse: Parsers)
    requires IsIconParser(parse.icon) && NormalizeIcon(raw, parse).Some?
    ensures var icon := NormalizeIcon(raw, parse).value;
            NormalizeIcon(icon, parse) == Some(icon) <==> ByteLength(icon) <= MAX_URL_LENGTH && Trimmed(icon)
  {
    var icon := NormalizeIcon(raw, parse).value;
    assert Trimmed("") && ByteLength("") == 0;
    if TrimSpace(raw) != "" {
      assert parse.icon(TrimSpace(raw)) == Some(icon);
      if Trimmed(icon) {
        assert TrimSpace(icon) == icon;
      } else {
        TrimmedPart(icon);
        assert icon != "";
      }
    }
    hide TrimSpace, Trimmed, ByteLength;
  }

  lemma TrimmedPart(s: string)
    ensures forall c <- TrimSpace(s) :: c in s
  {
    var left := TrimLeft(s);
    forall c | c in TrimRight(left) ensures c in s {
      assert c in left;
    }
  }

  /** The parts of a normal form are the normal forms of the parts. */
  lemma NormalParts(raw: RawItem, parse: Parsers)
    requires NormalItem(raw, parse).Some?
    ensures var item := NormalItem(raw, parse).value;
            && NormalizeKind(raw.kind) == Some(item.kind) && NormalizeTitle(raw.title) == Some(item.title)
            && NormalizeUrlOf(item.kind, raw.url, parse) == Some(item.url)
               && NormalizeIcon(raw.icon, parse) == Some(item.icon)
            && NormalItems(raw.children, parse) == Some(item.children) && (item.kind.Url? ==> item.children == [])
  {
    hide NormalizeKind, NormalizeTitle, NormalizeUrlOf, NormalizeIcon;
  }

  /** An item comes back when each of its parts does. */
  lemma PartsComeBack(item: Item, parse: Parsers)
    requires item.kind.Url? ==> item.children == []
    ensures NormalItem(AsRaw(item), parse) == Some(item) <==>
            && NormalizeTitle(item.title) == Some(item.title)
               && NormalizeUrlOf(item.kind, item.url, parse) == Some(item.url)
            && NormalizeIcon(item.icon, parse) == Some(item.icon)
               && NormalItems(AsRaws(item.children), parse) == Some(item.children)
  {
    KindTwice(item.kind);
    hide NormalizeKind, NormalizeTitle, NormalizeUrlOf, NormalizeIcon, NormalItems, AsRaws;
  }

  /** Normalizing the normal form of an item gives it back exactly when all its texts pass once more, at every depth. */
  lemma {:induction false} NormalizeTwice(raw: RawItem, parse: Parsers)
    requires AreParsers(parse) && NormalItem(raw, parse).Some?
    ensures var item := NormalItem(raw, parse).value; NormalItem(AsRaw(item), parse) == Some(item) <==> Passes(item)
    decreases raw, 0
  {
    hide NormalizeKind, NormalizeTitle, NormalizeUrlOf, NormalizeIcon, NormalItem, NormalItems, AsRaw, AsRaws, AllPass,
         Trimmed,
         ByteLength, IsUrlParser, IsIconParser;
    var item := NormalItem(raw, parse).value;
    NormalParts(raw, parse);
    PartsComeBack(item, parse);
    NormalizeAllTwice(raw.children, parse);
    TitleTwice(raw.title);
    UrlTwice(item.kind, raw.url, parse);
    IconTwice(raw.icon, parse);
  }

  /** The same for a list. */
  lemma {:induction false} NormalizeAllTwice(raws: seq<RawItem>, parse: Parsers)
    requires AreParsers(parse) && NormalItems(raws, parse).Some?
    ensures var items := NormalItems(raws, parse).value;
            NormalItems(AsRaws(items), parse) == Some(items) <==> AllPass(items)
    decreases raws, 1
  {
    hide NormalItem, NormalItems, AsRaw, AsRaws, Passes, AreParsers;
    var items := NormalItems(raws, parse).value;
    if raws != [] {
      NormalItemsLast(raws, parse);
      var (init, last) := (raws[..|raws| - 1], raws[|raws| - 1]);
      NormalizeAllTwice(init, parse);
      NormalizeTwice(last, parse);
      var earlier := NormalItems(init, parse).value;
      assert items[..|items| - 1] == earlier;
      AsRawsLast(items);
      NormalItemsAppend(AsRaws(earlier), AsRaw(items[|items| - 1]), parse);
      AllPassLast(items);
    } else {
      NothingTwice(parse);
    }
  }

  lemma AllPassLast(items: seq<Item>)
    requires items != []
    ensures AllPass(items) <==> AllPass(items[..|items| - 1]) && Passes(items[|items| - 1])
  {
    hide Passes;
  }

  lemma NothingTwice(parse: Parsers)
    ensures AsRaws([]) == [] && NormalItems([], parse) == Some([])
  {
  }

  lemma AsRawsLast(items: seq<Item>)
    requires items != []
    ensures AsRaws(items) == AsRaws(items[..|items| - 1]) + [AsRaw(items[|items| - 1])]
  {
  }

  lemma NormalItemsAppend(raws: seq<RawItem>, raw: RawItem, parse: Parsers)
    ensures NormalItems(raws + [raw], parse) ==
            if NormalItems(raws, parse).None? || NormalItem(raw, parse).None? then None
            else Some(NormalItems(raws, parse).value + [NormalItem(raw, parse).value])
  {
    hide NormalItem;
    assert (raws + [raw])[..|raws|] == raws;
  }

  // ----- texts that do not come back -----

  function Repeat(s: string, n: nat): (r: string)
    ensures |r| == n * |s|
  {
    if n == 0 then "" else Repeat(s, n - 1) + s
  }

  /** A url whose path is n times e with an acute accent, as it is written and as it is printed. */
  function Accented(n: nat): string {
    "http://h/" + Repeat("\U{00E9}", n)
  }

  function Escaped(n: nat): string {
    "http://h/" + Repeat("%C3%A9", n)
  }

  lemma BytesOfAppend(s: string, c: char)
    ensures ByteLength(s + [c]) == ByteLength(s) + Utf8Length(c)
  {
    assert (s + [c])[..|s|] == s;
  }

  lemma {:induction false} AccentedText(n: nat)
    ensures ByteLength(Accented(n)) == 9 + 2 * n && Trimmed(Accented(n)) && Accented(n) != ""
  {
    if n == 0 {
      HostText();
    } else {
      AccentedText(n - 1);
      BytesOfAppend(Accented(n - 1), '\U{00E9}');
      assert Accented(n) == Accented(n - 1) + ['\U{00E9}'];
    }
  }

  lemma {:induction false} AsciiBytes(s: string)
    requires forall i | 0 <= i < |s| :: s[i] < '\U{0080}'
    ensures ByteLength(s) == |s|
  {
    if s != "" {
      AsciiBytes(s[..|s| - 1]);
    }
  }

  lemma HostText()
    ensures ByteLength("http://h/") == 9 && Trimmed("http://h/") && Repeat("\U{00E9}", 0) == ""
    ensures Accented(0) == "http://h/"
  {
    AsciiBytes("http://h/");
    assert "http://h/" + "" == "http://h/";
  }

  lemma EscapedText(n: nat)
    ensures |Escaped(n)| == 9 + 6 * n && |Escaped(n)| <= ByteLength(Escaped(n))
  {
  }

  /** A url of such a path is accepted up to n == 1019, and from n == 340 on its normal form is refused. */
  lemma LongFormIsRefused(n: nat, parse: Parsers)
    requires 340 <= n <= 1019 && AreParsers(parse) && parse.url(Accented(n)) == Some(Escaped(n))
    ensures NormalizeUrl(Accented(n), parse.url) == Some(Escaped(n)) && NormalizeUrl(Escaped(n), parse.url).None?
  {
    AccentedText(n);
    EscapedText(n);
    assert Trimmed(Escaped(n));
    hide Accented, Escaped, TrimSpace, Trimmed, ByteLength;
  }

  /** That is no matter of the laws of parsers: one that prints so meets them. */
  lemma SomeParserEscapes(n: nat)
    ensures exists parse: Parsers :: AreParsers(parse) && parse.url(Accented(n)) == Some(Escaped(n))
  {
    var url: UrlParser := s => if s == Accented(n) || s == Escaped(n) then Some(Escaped(n)) else None;
    var parse := Parsers(url, s => None);
    EscapedIsTrimmed(n);
    EscapedText(n);
    hide Accented, Escaped, Trimmed;
    assert IsUrlParser(url) && IsIconParser(parse.icon);
    assert AreParsers(parse) && parse.url(Accented(n)) == Some(Escaped(n));
  }

  lemma EscapedIsTrimmed(n: nat)
    ensures Trimmed(Escaped(n))
  {
    assert Escaped(n)[0] == 'h';
    assert Escaped(n)[|Escaped(n)| - 1] in {'/', '9'};
  }

  /** An icon whose query ends in a blank before its fragment is accepted and does not come back. */
  lemma BlankEndIsLost(parse: Parsers)
    requires AreParsers(parse) && parse.icon("http://h/?a #f") == Some("http://h/?a ")
    ensures NormalizeIcon("http://h/?a #f", parse) == Some("http://h/?a ")
    ensures NormalizeIcon("http://h/?a ", parse) != Some("http://h/?a ")
  {
    BlankText();
    hide TrimSpace, Trimmed, ByteLength;
    IconTwice("http://h/?a #f", parse);
  }

  lemma BlankText()
    ensures TrimSpace("http://h/?a #f") == "http://h/?a #f" && ByteLength("http://h/?a #f") == 14
            && !Trimmed("http://h/?a ")
  {
    assert Trimmed("http://h/?a #f");
    AsciiBytes("http://h/?a #f");
  }

  // ----- what the import stores -----

  /** bookmarkStringPtr: texts are trimmed once more on their way into the rows. */
  function StoredItem(item: Item): Item
    decreases item, 0
  {
    Item(item.kind, item.title, TrimSpace(item.url), TrimSpace(item.icon), StoredItems(item.children))
  }

  function StoredItems(items: seq<Item>): (stored: seq<Item>)
    ensures |stored| == |items|
    decreases items, 1
  {
    if items == [] then [] else StoredItems(items[..|items| - 1]) + [StoredItem(items[|items| - 1])]
  }

  lemma StoredAppend(items: seq<Item>, item: Item)
    ensures StoredItems(items + [item]) == StoredItems(items) + [StoredItem(item)]
  {
    hide StoredItem;
    assert (items + [item])[..|items|] == items;
  }

  /** The texts fit their columns, character varying(2048), at every depth. */
  predicate FitsColumns(item: Item)
    decreases item
  {
    |TrimSpace(item.url)| <= MAX_URL_LENGTH && |TrimSpace(item.icon)| <= MAX_URL_LENGTH && AllFitColumns(item.children)
  }

  predicate AllFitColumns(items: seq<Item>)
    decreases items
  {
    forall i | 0 <= i < |items| :: FitsColumns(items[i])
  }

  lemma TextIsStored(text: string)
    requires Trimmed(text) && ByteLength(text) <= MAX_URL_LENGTH
    ensures TrimSpace(text) == text && |text| <= MAX_URL_LENGTH
  {
  }

  /** A normal form that comes back is stored as it is and fits. */
  lemma {:induction false} PassingIsStored(raw: RawItem, parse: Parsers)
    requires IsUrlParser(parse.url) && NormalItem(raw, parse).Some? && Passes(NormalItem(raw, parse).value)
    ensures var item := NormalItem(raw, parse).value; StoredItem(item) == item && FitsColumns(item)
    decreases raw, 0
  {
    hide NormalItem, NormalItems, NormalizeKind, NormalizeTitle, NormalizeUrlOf, NormalizeIcon, AllPass, AllFitColumns,
         StoredItems,
         IsUrlParser, Trimmed, TrimSpace, ByteLength;
    var item := NormalItem(raw, parse).value;
    NormalParts(raw, parse);
    UrlTwice(item.kind, raw.url, parse);
    TextIsStored(item.url);
    TextIsStored(item.icon);
    AllPassingAreStored(raw.children, parse);
  }

  lemma {:induction false} AllPassingAreStored(raws: seq<RawItem>, parse: Parsers)
    requires IsUrlParser(parse.url) && NormalItems(raws, parse).Some? && AllPass(NormalItems(raws, parse).value)
    ensures var items := NormalItems(raws, parse).value; StoredItems(items) == items && AllFitColumns(items)
    decreases raws, 1
  {
    hide NormalItem, NormalItems, Passes, FitsColumns, StoredItem, IsUrlParser;
    if raws != [] {
      var items := NormalItems(raws, parse).value;
      NormalItemsLast(raws, parse);
      assert items == items[..|items| - 1] + [items[|items| - 1]];
      AllPassLast(items);
      AllPassingAreStored(raws[..|raws| - 1], parse);
      PassingIsStored(raws[|raws| - 1], parse);
    } else {
      NothingTwice(parse);
    }
  }

  // ----- the code -----

  /** normalizeImportBrowserBookmarkItems */
  method NormalizeImportBrowserBookmarkItems(raws: seq<RawItem>, parse: Parsers) returns (items: Option<seq<Item>>)
    ensures items == NormalItems(raws, parse)
    decreases raws, 1
  {
    hide NormalItem, NormalItems, Acceptable, ValidItem, AreParsers, Passes, AsRaw;
    var normalized: seq<Item> := [];
    NothingTwice(parse);
    for n := 0 to |raws|
      invariant NormalItems(raws[..n], parse) == Some(normalized)
    {
      assert raws[..n + 1] == raws[..n] + [raws[n]];
      NormalItemsAppend(raws[..n], raws[n], parse);
      var item := NormalizeImportBrowserBookmarkItem(raws[n], parse);
      if item.None? {
        RefusedPrefix(raws, n + 1, parse);
        return None;
      }
      normalized := normalized + [item.value];
    }
    assert raws[..|raws|] == raws;
    items := Some(normalized);
  }

  /** One refused item refuses the whole list. */
  lemma {:induction false} RefusedPrefix(raws: seq<RawItem>, n: nat, parse: Parsers)
    requires n <= |raws| && NormalItems(raws[..n], parse).None?
    ensures NormalItems(raws, parse).None?
    decreases |raws| - n
  {
    if n == |raws| {
      assert raws[..n] == raws;
    } else {
      assert raws[..n + 1] == raws[..n] + [raws[n]];
      NormalItemsAppend(raws[..n], raws[n], parse);
      RefusedPrefix(raws, n + 1, parse);
    }
  }

  /** The code's one step, tied to what it is for: it accepts the acceptable items, what it makes of them is
      valid for the import, and that is its own normal form exactly when its texts pass once more. */
  lemma ItemOutcome(raw: RawItem, parse: Parsers)
    ensures NormalItem(raw, parse).Some? <==> Acceptable(raw, parse)
    ensures NormalItem(raw, parse).Some? ==> ValidItem(NormalItem(raw, parse).value)
    ensures NormalItem(raw, parse).Some? && AreParsers(parse) ==>
              var item := NormalItem(raw, parse).value; NormalItem(AsRaw(item), parse) == Some(item) <==> Passes(item)
  {
    hide NormalItem, ValidItem, Acceptable, AsRaw, AreParsers, Passes;
    AcceptedExactly(raw, parse);
    if NormalItem(raw, parse).Some? {
      NormalIsValid(raw, parse);
      if AreParsers(parse) {
        NormalizeTwice(raw, parse);
      }
    }
  }

  /** normalizeImportBrowserBookmarkItem */
  method NormalizeImportBrowserBookmarkItem(raw: RawItem, parse: Parsers) returns (item: Option<Item>)
    ensures item.Some? <==> Acceptable(raw, parse)
    ensures item.Some? ==> ValidItem(item.value)
    ensures item.Some? && AreParsers(parse) ==> (NormalItem(AsRaw(item.value), parse) == item <==> Passes(item.value))
    ensures item == NormalItem(raw, parse)
    decreases raw, 0
  {
    hide NormalizeKind, NormalizeTitle, NormalizeUrlOf, NormalizeIcon, NormalItems, Acceptable, ValidItem, AreParsers,
         AsRaw, Passes;
    ItemOutcome(raw, parse);
    var kind := NormalizeKind(raw.kind);
    if kind.None? {
      return None;
    }
    var title := NormalizeTitle(raw.title);
    if title.None? {
      return None;
    }
    var url := NormalizeItemUrl(kind.value, raw.url, parse);
    if url.None? {
      return None;
    }
    var icon := NormalizeIcon(raw.icon, parse);
    if icon.None? {
      return None;
    }
    NothingTwice(parse);
    if |raw.children| == 0 {
      return Some(Item(kind.value, title.value, url.value, icon.value, []));
    }
    if !kind.value.Folder? {
      return None;
    }
    var children := NormalizeImportBrowserBookmarkItems(raw.children, parse);
    if children.None? {
      return None;
    }
    item := Some(Item(kind.value, title.value, url.value, icon.value, children.value));
  }

  /** The url field of an item. */
  method NormalizeItemUrl(kind: Kind, raw: string, parse: Parsers) returns (url: Option<string>)
    ensures url == NormalizeUrlOf(kind, raw, parse)
  {
    if kind.Url? {
      url := NormalizeUrl(raw, parse.url);
    } else if TrimSpace(raw) != "" {
      url := None;
    } else {
      url := Some("");
    }
  }
}
