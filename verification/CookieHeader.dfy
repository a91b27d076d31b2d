/** Reading the `Cookie` header back. What RFC 6265, section 4.2.1, prints, the parser returns, with the
    last of several cookies of one name; entries without a name disturb nothing. Exactly which headers make
    it throw and which names it loses is stated too. */
module CookieHeader {
  import opened Common
  import Text
  import UriComponent

  // ---------- the parser ----------

  /** `split(';')`. */
  function Split(s: string): (parts: seq<string>)
    ensures |parts| > 0
  {
    if s == "" then [""]
    else if s[0] == ';' then [""] + Split(s[1..])
    else
      var rest := Split(s[1..]);
      [[s[0]] + rest[0]] + rest[1..]
  }

  /** `indexOf('=')`. */
  function IndexOfEquals(s: string): (i: int)
    ensures -1 <= i < |s|
    ensures i == -1 <==> '=' !in s
    ensures i >= 0 ==> s[i] == '=' && '=' !in s[..i]
  {
    if s == "" then -1
    else if s[0] == '=' then 0
    else
      var i := IndexOfEquals(s[1..]);
      assert s == [s[0]] + s[1..];
      if i == -1 then -1 else assert s[..i + 1] == [s[0]] + s[1..][..i]; i + 1
  }

  /** A part either has no name before its first equals sign, or is a name with its decoded value; no
      value means that decoding throws. */
  datatype Entry = Skipped | Pair(key: string, value: Option<string>)

  function Read(part: string): Entry {
    var entry := Text.Trim(part);
    var separator := IndexOfEquals(entry);
    if separator <= 0 then Skipped
    else Pair(Text.Trim(entry[..separator]), UriComponent.Decode(Text.Trim(entry[separator + 1..])))
  }

  function ReadAll(parts: seq<string>): seq<Entry> {
    seq(|parts|, i requires 0 <= i < |parts| => Read(parts[i]))
  }

  /** Assigning a string to the prototype property of an object leaves the object as it is. */
  const PROTO := "__proto__"

  function Assign(cookies: map<string, string>, key: string, value: string): map<string, string> {
    if key == PROTO then cookies else cookies[key := value]
  }

  /** One entry more; `None` is the error thrown on a malformed escape. */
  function Extend(acc: Option<map<string, string>>, entry: Entry): Option<map<string, string>> {
    if acc.None? || entry.Skipped? then acc
    else if entry.value.None? then None
    else Some(Assign(acc.value, entry.key, entry.value.value))
  }

  function Reduce(entries: seq<Entry>): Option<map<string, string>> {
    if entries == [] then Some(map[]) else Extend(Reduce(entries[..|entries| - 1]), entries[|entries| - 1])
  }

  function Parse(header: string): Option<map<string, string>> {
    if header == "" then Some(map[]) else Reduce(ReadAll(Split(header)))
  }

  /** `parseCookies` on a request whose cookies nobody has parsed before; an absent header is `None`. */
  method ParseCookies(header: Option<string>) returns (cookies: Option<map<string, string>>)
    ensures cookies == if header.Some? then Parse(header.value) else Some(map[])
  {
    if header.None? || header.value == "" { return Some(map[]); }
    var parts := Split(header.value);
    ghost var entries := ReadAll(parts);
    var acc: map<string, string> := map[];
    for i := 0 to |parts|
      invariant Reduce(entries[..i]) == Some(acc)
    {
      ReduceNext(entries, i);
      assert entries[i] == Read(parts[i]);
      var entry := Text.Trim(parts[i]);
      var separator := IndexOfEquals(entry);
      if separator > 0 {
        var key, value := Text.Trim(entry[..separator]), UriComponent.Decode(Text.Trim(entry[separator + 1..]));
        if value.None? {
          ReduceThrows(entries, i);
          return None;
        }
        acc := Assign(acc, key, value.value);
      }
    }
    assert entries[..|parts|] == entries;
    return Some(acc);
  }

  lemma ReduceNext(entries: seq<Entry>, i: nat)
    requires i < |entries|
    ensures Reduce(entries[..i + 1]) == Extend(Reduce(entries[..i]), entries[i])
  {
    assert entries[..i + 1][..i] == entries[..i];
  }

  lemma {:induction false} ReduceThrows(entries: seq<Entry>, i: nat)
    requires i < |entries| && Reduce(entries[..i + 1]) == None
    ensures Reduce(entries) == None
    decreases |entries| - i
  {
    if i + 1 < |entries| {
      assert entries[..i + 2][..i + 1] == entries[..i + 1];
      ReduceThrows(entries, i + 1);
    } else {
      assert entries[..i + 1] == entries;
    }
  }

  // ---------- which headers throw, and what is lost ----------

  predicate Malformed(e: Entry) {
    e.Pair? && e.value.None?
  }

  lemma {:induction false} ThrowsExactly(entries: seq<Entry>)
    ensures Reduce(entries) == None <==> exists k :: 0 <= k < |entries| && Malformed(entries[k])
  {
    if entries != [] {
      var front, last := entries[..|entries| - 1], entries[|entries| - 1];
      ThrowsExactly(front);
      assert entries == front + [last];
    }
  }

  /** Parsing throws just when some part with a name has a malformed escape. */
  lemma ParseThrowsExactly(header: string)
    ensures Parse(header) == None <==> exists part :: part in Split(header) && Malformed(Read(part))
  {
    var parts := Split(header);
    ThrowsExactly(ReadAll(parts));
    if part :| part in parts && Malformed(Read(part)) {
      var k :| 0 <= k < |parts| && parts[k] == part;
      assert ReadAll(parts)[k] == Read(part);
    }
  }

  /** The last entry of a name. */
  predicate LastOf(entries: seq<Entry>, k: nat, key: string) {
    && k < |entries| && entries[k].Pair? && entries[k].key == key
    && forall j :: k < j < |entries| && entries[j].Pair? ==> entries[j].key != key
  }

  lemma LastOfExtended(front: seq<Entry>, last: Entry, k: nat, key: string)
    ensures LastOf(front + [last], k, key) <==>
      if last.Pair? && last.key == key then k == |front| else LastOf(front, k, key)
  {
    var entries := front + [last];
    assert entries[|front|] == last && forall j :: 0 <= j < |front| ==> entries[j] == front[j];
  }

  /** Otherwise it returns, for every name but `__proto__`, the decoded value of the last entry of that
      name, and no other name. */
  lemma {:induction false} ReturnsExactly(entries: seq<Entry>, key: string)
    requires Reduce(entries).Some?
    ensures key in Reduce(entries).value <==> key != "__proto__" && exists k: nat :: LastOf(entries, k, key)
    ensures forall k: nat :: LastOf(entries, k, key) && key != "__proto__" ==>
      key in Reduce(entries).value && Some(Reduce(entries).value[key]) == entries[k].value
  {
    if entries != [] {
      var n := |entries| - 1;
      var front, last := entries[..n], entries[n];
      ReturnsExactly(front, key);
      assert entries == front + [last];
      forall k: nat
        ensures LastOf(entries, k, key) <==> if last.Pair? && last.key == key then k == n else LastOf(front, k, key)
      {
        LastOfExtended(front, last, k, key);
      }
      assert last.Pair? && last.key == key ==> LastOf(entries, n, key);
    }
  }

  // ---------- printing and reading back ----------

  datatype Cookie = Cookie(name: string, value: string)

  /** A name as section 4.1.1 allows it holds no separator and no white space; more than that is not asked. */
  predicate NameFits(name: string) {
    name != "" && forall c :: c in name ==> c != ';' && c != '=' && !Text.IsSpace(c)
  }

  function Print(c: Cookie): string {
    c.name + "=" + UriComponent.Encode(c.value)
  }

  /** The cookie-string: pairs separated by a semicolon and a space. */
  function CookieString(cookies: seq<Cookie>): string
    requires cookies != []
  {
    if |cookies| == 1 then Print(cookies[0]) else Print(cookies[0]) + "; " + CookieString(cookies[1..])
  }

  /** Later cookies replace earlier ones of the same name. */
  function LastWins(cookies: seq<Cookie>): map<string, string> {
    if cookies == [] then map[]
    else
      var last := cookies[|cookies| - 1];
      LastWins(cookies[..|cookies| - 1])[last.name := last.value]
  }

  predicate Clean(s: string) {
    forall c :: c in s ==> c != ';' && !Text.IsSpace(c)
  }

  lemma CleanIsTrimmed(s: string)
    requires Clean(s)
    ensures Text.Trim(s) == s && Text.Trim(" " + s) == s
  {
  }

  lemma EncodedIsClean(value: string)
    ensures Clean(UriComponent.Encode(value))
  {
    UriComponent.EncodedIsPlain(value);
  }

  lemma FirstEquals(a: string, b: string)
    requires '=' !in a
    ensures IndexOfEquals(a + "=" + b) == |a|
    decreases |a|
  {
    var s := a + "=" + b;
    if a == "" {
      assert s[0] == '=';
    } else {
      assert a == [a[0]] + a[1..];
      assert s[1..] == a[1..] + "=" + b;
      FirstEquals(a[1..], b);
    }
  }

  lemma PartFields(name: string, encoded: string, part: string)
    requires name != "" && '=' !in name && Clean(name) && Clean(encoded) && Text.Trim(part) == name + "=" + encoded
    ensures Read(part) == Pair(name, UriComponent.Decode(encoded))
  {
    var entry := name + "=" + encoded;
    FirstEquals(name, encoded);
    assert entry[..|name|] == name && entry[|name| + 1..] == encoded;
    CleanIsTrimmed(name);
    CleanIsTrimmed(encoded);
  }

  /** A printed cookie, with or without the space before it, yields its name and value. */
  lemma PrintedPart(c: Cookie, part: string)
    requires NameFits(c.name) && (part == Print(c) || part == " " + Print(c))
    ensures Read(part) == Pair(c.name, Some(c.value)) && ';' !in part
  {
    EncodedIsClean(c.value);
    assert Clean(c.name) && Clean(Print(c));
    CleanIsTrimmed(Print(c));
    PartFields(c.name, UriComponent.Encode(c.value), part);
    UriComponent.DecodeEncoded(c.value);
  }

  lemma {:induction false} SplitFirst(a: string, rest: string)
    requires ';' !in a
    ensures Split(a + ";" + rest) == [a] + Split(rest) && Split(a) == [a]
    decreases |a|
  {
    var s := a + ";" + rest;
    if a == "" {
      assert s[0] == ';' && s[1..] == rest;
    } else {
      assert a == [a[0]] + a[1..];
      assert s[1..] == a[1..] + ";" + rest;
      SplitFirst(a[1..], rest);
    }
  }

  function Join(parts: seq<string>): string
    requires parts != []
  {
    if |parts| == 1 then parts[0] else parts[0] + ";" + Join(parts[1..])
  }

  /** Splitting undoes joining. */
  lemma {:induction false} SplitJoined(parts: seq<string>)
    requires parts != [] && forall p :: p in parts ==> ';' !in p
    ensures Split(Join(parts)) == parts
  {
    assert parts[0] in parts;
    if |parts| == 1 {
      SplitFirst(parts[0], "");
    } else {
      SplitJoined(parts[1..]);
      SplitFirst(parts[0], Join(parts[1..]));
    }
  }

  /** The parts a header is made of: each a printed cookie or something that does not count. */
  datatype Item = Printed(cookie: Cookie, spaced: bool) | Junk(text: string)

  predicate ItemFits(item: Item) {
    match item
    case Printed(c, _) => NameFits(c.name) && c.name != PROTO
    case Junk(text) => ';' !in text && Read(text) == Skipped
  }

  function Part(item: Item): string {
    match item
    case Printed(c, spaced) => if spaced then " " + Print(c) else Print(c)
    case Junk(text) => text
  }

  function Parts(items: seq<Item>): seq<string> {
    seq(|items|, i requires 0 <= i < |items| => Part(items[i]))
  }

  function Cookies(items: seq<Item>): seq<Cookie> {
    if items == [] then []
    else
      var last := items[|items| - 1];
      Cookies(items[..|items| - 1]) + if last.Printed? then [last.cookie] else []
  }

  function EntryOf(item: Item): Entry {
    if item.Printed? then Pair(item.cookie.name, Some(item.cookie.value)) else Skipped
  }

  function Entries(items: seq<Item>): seq<Entry> {
    seq(|items|, i requires 0 <= i < |items| => EntryOf(items[i]))
  }

  lemma ItemsRead(items: seq<Item>)
    requires forall i :: i in items ==> ItemFits(i)
    ensures ReadAll(Parts(items)) == Entries(items)
  {
    forall k | 0 <= k < |items| ensures ReadAll(Parts(items))[k] == EntryOf(items[k]) {
      ItemRead(items[k]);
    }
  }

  lemma ItemRead(item: Item)
    requires ItemFits(item)
    ensures Read(Part(item)) == EntryOf(item)
  {
    if item.Printed? {
      PrintedPart(item.cookie, Part(item));
    }
  }

  lemma ReduceItem(front: seq<Entry>, e: Entry)
    ensures Reduce(front + [e]) == Extend(Reduce(front), e)
  {
    assert (front + [e])[..|front|] == front;
  }

  lemma CookiesItem(front: seq<Item>, item: Item)
    ensures Cookies(front + [item]) == Cookies(front) + if item.Printed? then [item.cookie] else []
  {
    assert (front + [item])[..|front|] == front;
  }

  lemma LastWinsItem(front: seq<Cookie>, c: Cookie)
    ensures LastWins(front + [c]) == LastWins(front)[c.name := c.value]
  {
    assert (front + [c])[..|front|] == front;
  }

  lemma {:induction false} ReduceReadsBack(items: seq<Item>)
    requires forall i :: i in items && i.Printed? ==> i.cookie.name != PROTO
    ensures Reduce(Entries(items)) == Some(LastWins(Cookies(items)))
  {
    if items != [] {
      var front, last := items[..|items| - 1], items[|items| - 1];
      ReduceReadsBack(front);
      assert items == front + [last] && last in items;
      assert Entries(items) == Entries(front) + [EntryOf(last)];
      ReduceItem(Entries(front), EntryOf(last));
      CookiesItem(front, last);
      if last.Printed? {
        LastWinsItem(Cookies(front), last.cookie);
      } else {
        assert Cookies(front) + [] == Cookies(front);
      }
    }
  }

  /** Parsing a header of printed cookies, with or without spaces and with entries that do not count
      anywhere between them, returns exactly the cookies, the last of each name winning. */
  lemma ParseReadsBack(items: seq<Item>)
    requires items != [] && forall i :: i in items ==> ItemFits(i)
    ensures Parse(Join(Parts(items))) == Some(LastWins(Cookies(items)))
  {
    var parts := Parts(items);
    forall p | p in parts ensures ';' !in p {
      var i :| 0 <= i < |parts| && parts[i] == p;
      assert items[i] in items && p == Part(items[i]);
      if items[i].Printed? {
        PrintedPart(items[i].cookie, p);
      }
    }
    SplitJoined(parts);
    ItemsRead(items);
    forall i | i in items && i.Printed? ensures i.cookie.name != PROTO {
      assert ItemFits(i);
    }
    ReduceReadsBack(items);
    if Join(parts) == "" {
      assert Split("") == [""] == parts;
      assert items[0] in items && Part(items[0]) == "";
      assert items == [items[0]];
    }
  }

  function Spaced(cookies: seq<Cookie>): seq<Item> {
    seq(|cookies|, i requires 0 <= i < |cookies| => Printed(cookies[i], i > 0))
  }

  lemma SpacedFits(cookies: seq<Cookie>)
    requires forall c :: c in cookies ==> NameFits(c.name) && c.name != PROTO
    ensures forall i :: i in Spaced(cookies) ==> ItemFits(i)
  {
    forall i | i in Spaced(cookies) ensures ItemFits(i) {
      var k :| 0 <= k < |cookies| && Spaced(cookies)[k] == i;
      assert cookies[k] in cookies;
    }
  }

  lemma PartsOfSpaced(cookies: seq<Cookie>)
    requires cookies != []
    ensures Parts(Spaced(cookies)) == [Print(cookies[0])] + SpacedTail(cookies)
  {
  }

  lemma {:induction false} CookiesOfSpaced(cookies: seq<Cookie>)
    ensures Cookies(Spaced(cookies)) == cookies
  {
    if cookies != [] {
      var n := |cookies| - 1;
      CookiesOfSpaced(cookies[..n]);
      assert Spaced(cookies)[..n] == Spaced(cookies[..n]);
      assert cookies == cookies[..n] + [cookies[n]];
    }
  }

  function SpacedTail(cookies: seq<Cookie>): seq<string>
    requires cookies != []
  {
    seq(|cookies| - 1, i requires 0 <= i < |cookies| - 1 => " " + Print(cookies[i + 1]))
  }

  lemma SpaceFirst(first: string, rest: seq<string>)
    ensures Join([" " + first] + rest) == " " + Join([first] + rest)
  {
  }

  lemma JoinStep(first: string, second: string, rest: seq<string>)
    ensures Join([first] + ([" " + second] + rest)) == first + "; " + Join([second] + rest)
  {
    var tail := [" " + second] + rest;
    assert ([first] + tail)[1..] == tail;
    SpaceFirst(second, rest);
    assert first + ";" + (" " + Join([second] + rest)) == first + "; " + Join([second] + rest);
  }

  lemma TailOfSpaced(cookies: seq<Cookie>)
    requires |cookies| > 1
    ensures SpacedTail(cookies) == [" " + Print(cookies[1])] + SpacedTail(cookies[1..])
  {
  }

  lemma {:induction false} JoinIsCookieString(cookies: seq<Cookie>)
    requires cookies != []
    ensures Join([Print(cookies[0])] + SpacedTail(cookies)) == CookieString(cookies)
  {
    if |cookies| > 1 {
      TailOfSpaced(cookies);
      JoinStep(Print(cookies[0]), Print(cookies[1]), SpacedTail(cookies[1..]));
      JoinIsCookieString(cookies[1..]);
    }
  }

  /** The round trip: a cookie-string is read back as the cookies printed. */
  lemma CookieStringReadsBack(cookies: seq<Cookie>)
    requires cookies != [] && forall c :: c in cookies ==> NameFits(c.name) && c.name != PROTO
    ensures Parse(CookieString(cookies)) == Some(LastWins(cookies))
  {
    SpacedFits(cookies);
    ParseReadsBack(Spaced(cookies));
    CookiesOfSpaced(cookies);
    PartsOfSpaced(cookies);
    JoinIsCookieString(cookies);
  }
}
