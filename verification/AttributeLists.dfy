// The two parsers of attribute lists, name=value separated by blanks, against one printer.
module AttributeLists {
  import opened Basics
  import opened HttpText

  const EQUALS: Text := [61]

  predicate IsQuote(c: byte) { c == 39 || c == 34 }
  predicate NotBlank(c: byte) { c != 32 }

  // An attribute as it stands in the text.
  datatype Item = Item(name: Text, value: Text)

  // Start of the run of alphanumeric characters that ends before x.
  function WordStart(s: Text, x: nat): (n: nat)
    requires x <= |s|
    ensures n <= x && (forall j :: n <= j < x ==> IsAlnum(s[j])) && (n > 0 ==> !IsAlnum(s[n - 1]))
  {
    if x > 0 && IsAlnum(s[x - 1]) then WordStart(s, x - 1) else x
  }

  // What follows the value that ends at v: one parser goes on at the blank, the other behind it.
  function Rest(s: Text, v: nat, skip: bool): Text
    requires v <= |s|
  {
    if skip && v < |s| then s[v + 1..] else s[v..]
  }

  // The attributes of a text, at most limit of them.
  function Items(s: Text, skip: bool, limit: nat): seq<Item>
    decreases limit
  {
    if limit == 0 then []
    else
      match First(s, EQUALS)
      case None => []
      case Some(x) =>
        if x == 0 then []
        else
          var v := RunEnd(s, NotBlank, x + 1);
          [Item(s[WordStart(s, x)..x], s[x + 1..v])] + Items(Rest(s, v, skip), skip, limit - 1)
  }

  // An attribute to be printed, with the quote around its value, if any.
  datatype Attribute = Attribute(name: Text, value: Text, quote: Option<byte>)

  predicate WellFormed(a: Attribute)
  {
    && a.name != [] && (forall c :: c in a.name ==> IsAlnum(c))
    && (forall c :: c in a.value ==> c != 0 && c != 32)
    && (a.quote.None? ==> a.value == [] || !IsQuote(a.value[0]))
    && (a.quote.Some? ==> IsQuote(a.quote.value))
  }

  function Quoted(a: Attribute): Text
  {
    match a.quote
    case None => a.value
    case Some(q) => [q] + a.value + [q]
  }

  function PrintOne(a: Attribute): Text { a.name + EQUALS + Quoted(a) }

  // Each attribute preceded by a blank.
  function PrintRest(list: seq<Attribute>): Text
  {
    if list == [] then [] else [32] + PrintOne(list[0]) + PrintRest(list[1..])
  }

  function Print(list: seq<Attribute>): Text
  {
    if list == [] then [] else PrintOne(list[0]) + PrintRest(list[1..])
  }

  function ItemOf(a: Attribute): Item { Item(a.name, Quoted(a)) }

  predicate AllWellFormed(list: seq<Attribute>)
  {
    forall i :: 0 <= i < |list| ==> WellFormed(list[i])
  }

  function ItemsOf(list: seq<Attribute>): seq<Item>
  {
    seq(|list|, i requires 0 <= i < |list| => ItemOf(list[i]))
  }

  lemma FirstIs(s: Text, x: nat)
    requires x < |s| && s[x] == 61 && 61 !in s[..x]
    ensures First(s, EQUALS) == Some(x)
  {
    assert s[x..x + 1] == EQUALS;
    assert IsAt(s, EQUALS, x);
    forall j | 0 <= j < x
      ensures !IsAt(s, EQUALS, j)
    {
      assert s[..x][j] == s[j] && EQUALS[0] == 61;
      assert s[j..j + 1][0] == s[j];
    }
    hide IsAt;
  }

  lemma {:induction false} WordStartIs(s: Text, n: nat, x: nat)
    requires n <= x <= |s| && (forall j :: n <= j < x ==> IsAlnum(s[j])) && (n > 0 ==> !IsAlnum(s[n - 1]))
    ensures WordStart(s, x) == n
    decreases x
  {
    if n < x {
      WordStartIs(s, n, x - 1);
    }
  }

  // The places in a text made of a blank or none, a name, an equals sign, a value and more.
  lemma Places(lead: Text, name: Text, value: Text, more: Text)
    ensures var s := lead + (name + EQUALS + value) + more;
      var x := |lead| + |name|;
      var v := x + 1 + |value|;
      && v <= |s| && s[..x] == lead + name && s[x] == 61 && s[x + 1..v] == value && s[v..] == more && s[|lead|..x] == name
      && (v < |s| ==> s[v] == more[0])
  {
  }

  // The attribute at the front of a text, behind a blank or none.
  lemma FrontItem(lead: Text, a: Attribute, more: Text)
    requires WellFormed(a) && (lead == [] || lead == [32]) && (more == [] || more[0] == 32)
    ensures var s := lead + PrintOne(a) + more;
      var x := |lead| + |a.name|;
      var v := x + 1 + |Quoted(a)|;
      && First(s, EQUALS) == Some(x) && 0 < x < v <= |s| && WordStart(s, x) == |lead| && s[|lead|..x] == a.name
      && RunEnd(s, NotBlank, x + 1) == v && s[x + 1..v] == Quoted(a) && s[v..] == more
  {
    var s, x := lead + PrintOne(a) + more, |lead| + |a.name|;
    var q := Quoted(a);
    var v := x + 1 + |q|;
    assert forall c :: c in q ==> c != 32;
    Places(lead, a.name, q, more);
    hide Quoted, First, RunEnd, WordStart, PrintOne;
    NameBefore(s, lead, a.name, x);
    ValueBehind(s, q, x + 1, v);
  }

  lemma NameBefore(s: Text, lead: Text, name: Text, x: nat)
    requires x < |s| && s[x] == 61 && s[..x] == lead + name && (lead == [] || lead == [32]) && forall c :: c in name ==> IsAlnum(c)
    ensures First(s, EQUALS) == Some(x) && WordStart(s, x) == |lead|
  {
    hide First, WordStart;
    assert forall c :: c in s[..x] ==> c in lead || c in name;
    FirstIs(s, x);
    forall j | |lead| <= j < x
      ensures IsAlnum(s[j])
    {
      assert s[j] == s[..x][j] == name[j - |lead|];
    }
    assert lead != [] ==> s[..x][0] == 32;
    WordStartIs(s, |lead|, x);
  }

  lemma ValueBehind(s: Text, q: Text, i: nat, v: nat)
    requires i <= v <= |s| && s[i..v] == q && (v < |s| ==> s[v] == 32) && forall c :: c in q ==> c != 32
    ensures RunEnd(s, NotBlank, i) == v
  {
    hide RunEnd;
    forall j | i <= j < v
      ensures s[j] != 32
    {
      assert s[j] == s[i..v][j - i];
      assert q[j - i] in q;
    }
    RunTo(s, NotBlank, i, v);
  }

  function Min(a: nat, b: nat): nat { if a < b then a else b }

  function ListText(list: seq<Attribute>, lead: bool): Text
  {
    if lead then PrintRest(list) else Print(list)
  }

  lemma TextFront(list: seq<Attribute>, lead: bool)
    requires list != []
    ensures ListText(list, lead) == (if lead then [32] else []) + PrintOne(list[0]) + PrintRest(list[1..])
    ensures PrintRest(list[1..]) == [] || PrintRest(list[1..])[0] == 32
    ensures if list[1..] == [] then PrintRest(list[1..]) == []
            else PrintRest(list[1..]) != [] && PrintRest(list[1..])[1..] == Print(list[1..])
  {
    hide PrintOne;
  }

  lemma ItemsOfFront(list: seq<Attribute>, limit: nat)
    requires list != [] && limit > 0
    ensures ItemsOf(list[..Min(|list|, limit)]) == [ItemOf(list[0])] + ItemsOf(list[1..][..Min(|list| - 1, limit - 1)])
  {
    hide ItemOf;
  }

  // Where the first attribute of a printed list stands.
  predicate Stands(s: Text, a: Attribute, n: nat, rest: seq<Attribute>)
  {
    var x := n + |a.name|;
    var v := x + 1 + |Quoted(a)|;
    && First(s, EQUALS) == Some(x) && 0 < x < v <= |s| && WordStart(s, x) == n && s[n..x] == a.name
    && RunEnd(s, NotBlank, x + 1) == v && s[x + 1..v] == Quoted(a) && s[v..] == PrintRest(rest)
  }

  lemma FirstStands(list: seq<Attribute>, lead: bool)
    requires list != [] && WellFormed(list[0])
    ensures Stands(ListText(list, lead), list[0], if lead then 1 else 0, list[1..])
  {
    hide First, WordStart, RunEnd, Quoted, Print, PrintRest, PrintOne, ListText, WellFormed;
    TextFront(list, lead);
    FrontItem(if lead then [32] else [], list[0], PrintRest(list[1..]));
  }

  lemma ReadOne(list: seq<Attribute>, skip: bool, lead: bool, limit: nat)
    requires list != [] && limit > 0 && WellFormed(list[0]) && !(skip && lead)
    ensures Items(ListText(list, lead), skip, limit) == [ItemOf(list[0])] + Items(ListText(list[1..], !skip), skip, limit - 1)
  {
    hide Items, ItemOf, First, WordStart, RunEnd, Rest, Print, PrintRest, ListText, Quoted, WellFormed;
    var a, n := list[0], if lead then 1 else 0;
    FirstStands(list, lead);
    TextFront(list, lead);
    GoOn(list[1..], ListText(list, lead), n + |a.name| + 1 + |Quoted(a)|, skip);
    ItemsStep(ListText(list, lead), a, skip, limit, ListText(list[1..], !skip), n);
  }

  lemma GoOn(rest: seq<Attribute>, s: Text, v: nat, skip: bool)
    requires v <= |s| && s[v..] == PrintRest(rest)
    requires if rest == [] then PrintRest(rest) == [] else PrintRest(rest) != [] && PrintRest(rest)[1..] == Print(rest)
    ensures Rest(s, v, skip) == ListText(rest, !skip)
  {
    hide PrintOne, PrintRest;
    assert skip && v < |s| ==> s[v + 1..] == s[v..][1..];
  }

  lemma NothingRead(list: seq<Attribute>, skip: bool, lead: bool, limit: nat)
    requires list == [] || limit == 0
    ensures Items(ListText(list, lead), skip, limit) == [] == ItemsOf(list[..Min(|list|, limit)])
  {
    if list == [] {
      NoEquals();
      assert ListText(list, lead) == [];
    }
    assert list[..Min(|list|, limit)] == [];
    hide ListText, First;
  }

  lemma FrontGood(list: seq<Attribute>)
    requires AllWellFormed(list) && list != []
    ensures WellFormed(list[0]) && AllWellFormed(list[1..])
  {
    hide WellFormed;
  }

  // Printed attributes are read back as they stand, up to the limit, by either way of going on.
  lemma {:induction false} PrintedItems(list: seq<Attribute>, skip: bool, lead: bool, limit: nat)
    requires AllWellFormed(list) && !(skip && lead)
    ensures Items(ListText(list, lead), skip, limit) == ItemsOf(list[..Min(|list|, limit)])
    decreases |list|
  {
    hide *;
    if list == [] || limit == 0 {
      NothingRead(list, skip, lead, limit);
    } else {
      FrontGood(list);
      ReadOne(list, skip, lead, limit);
      PrintedItems(list[1..], skip, !skip, limit - 1);
      ItemsOfFront(list, limit);
    }
  }

  lemma ItemsStep(s: Text, a: Attribute, skip: bool, limit: nat, next: Text, n: nat)
    requires limit > 0
    requires var x := n + |a.name|;
      var v := x + 1 + |Quoted(a)|;
      && First(s, EQUALS) == Some(x) && 0 < x < v <= |s| && WordStart(s, x) == n && s[n..x] == a.name
      && RunEnd(s, NotBlank, x + 1) == v && s[x + 1..v] == Quoted(a) && Rest(s, v, skip) == next
    ensures Items(s, skip, limit) == [ItemOf(a)] + Items(next, skip, limit - 1)
  {
    hide First, WordStart, RunEnd, Quoted, Items, Rest;
    ItemsAre(s, skip, limit, n, n + |a.name|, n + |a.name| + 1 + |Quoted(a)|);
  }

  lemma ItemsAre(s: Text, skip: bool, limit: nat, n: nat, x: nat, v: nat)
    requires limit > 0 && First(s, EQUALS) == Some(x) && x > 0
    requires WordStart(s, x) == n && RunEnd(s, NotBlank, x + 1) == v
    ensures v <= |s| && n <= x < v && Items(s, skip, limit) == [Item(s[n..x], s[x + 1..v])] + Items(Rest(s, v, skip), skip, limit - 1)
  {
    hide First, WordStart, RunEnd, Rest;
  }

  lemma NoEquals()
    ensures First([], EQUALS) == None
  {
  }

  // The value parse_argument passes on: none for an empty one, and a first quote takes the last
  // character with it.
  function Unquoted(value: Text): Option<Text>
  {
    if value == [] then None
    else if IsQuote(value[0]) && |value| > 1 then Some(value[1..|value| - 1])
    else Some(value)
  }

  // A value that is one quote makes the copy's length negative.
  predicate LoneQuote(value: Text) { |value| == 1 && IsQuote(value[0]) }

  predicate NoLoneQuote(items: seq<Item>)
  {
    forall i :: 0 <= i < |items| ==> !LoneQuote(items[i].value)
  }

  datatype Arguments = Arguments(names: seq<Text>, values: seq<Option<Text>>, url: Option<Text>) | Overrun

  const ENTRIES := 100

  predicate IsSource(name: Text) { name == Ascii("SRC") || name == Ascii("src") }

  // Value of the last attribute named SRC or src.
  function SourceOf(items: seq<Item>): Option<Text>
  {
    if items == [] then None
    else if IsSource(items[|items| - 1].name) then Unquoted(items[|items| - 1].value)
    else SourceOf(items[..|items| - 1])
  }

  // What stands in the two static arrays: one fixed entry, then the attributes.
  predicate Holds(r: Arguments, items: seq<Item>)
  {
    && r.Arguments? && |r.names| == |r.values| == |items| + 1
    && r.names[0] == Ascii("allowFullScreen") && r.values[0] == Some(Ascii("true"))
    && (forall i :: 0 <= i < |items| ==> r.names[i + 1] == items[i].name && r.values[i + 1] == Unquoted(items[i].value))
    && r.url == SourceOf(items)
  }

  method SkipValue(s: Text, i: nat) returns (v: nat)
    requires i <= |s| && 0 !in s
    ensures v == RunEnd(s, NotBlank, i)
  {
    v := i;
    while At(s, v) != 0 && At(s, v) != 32
      invariant i <= v <= |s| && RunEnd(s, NotBlank, v) == RunEnd(s, NotBlank, i)
      decreases |s| - v
    {
      v := v + 1;
    }
    assert v < |s| ==> s[v] in s;
  }

  method BackOverName(s: Text, x: nat) returns (n: nat)
    requires x <= |s|
    ensures n == WordStart(s, x)
  {
    n := x;
    while n >= 1 && IsAlnum(s[n - 1])
      invariant n <= x && WordStart(s, n) == WordStart(s, x)
      decreases n
    {
      n := n - 1;
    }
  }

  // One round of either parser on the text from its cursor on: where the name starts, the equals sign is
  // and the value ends; none when there is nothing more to read.
  method NextItem(s: Text, limit: nat) returns (r: Option<(nat, nat, nat)>)
    requires 0 !in s && limit > 0
    ensures match r
      case None => forall skip :: Items(s, skip, limit) == []
      case Some((n, x, v)) =>
        n <= x < v <= |s|
        && forall skip :: Items(s, skip, limit) == [Item(s[n..x], s[x + 1..v])] + Items(Rest(s, v, skip), skip, limit - 1)
  {
    hide First, WordStart, RunEnd;
    var xp := First(s, EQUALS);
    if xp.None? || xp.value == 0 { return None; }
    var x := xp.value;
    var v := SkipValue(s, x + 1);
    var n := BackOverName(s, x);
    r := Some((n, x, v));
  }

  method ParseArgument(url: Text) returns (r: Arguments)
    requires 0 !in url
    ensures var items := Items(url, false, ENTRIES - 1);
      if NoLoneQuote(items) then Holds(r, items) else r == Overrun
  {
    hide Items, Ascii, First, Unquoted, IsSource, LoneQuote;
    r := Arguments([Ascii("allowFullScreen")], [Some(Ascii("true"))], None);
    var count, ctxp := 1, 0;
    ghost var items := Items(url, false, ENTRIES - 1);
    ghost var done: seq<Item> := [];
    assert url[0..] == url;
    while count < ENTRIES
      invariant 1 <= count <= ENTRIES && ctxp <= |url| && count == |done| + 1
      invariant items == done + Items(url[ctxp..], false, ENTRIES - count)
      invariant Holds(r, done) && NoLoneQuote(done)
      decreases ENTRIES - count
    {
      NoZeroBehind(url, ctxp);
      var next := NextItem(url[ctxp..], ENTRIES - count);
      if next.None? {
        assert items == done;
        return;
      }
      var (n, x, v) := next.value;
      var name, value := url[ctxp..][n..x], url[ctxp..][x + 1..v];
      ghost var item := Item(name, value);
      assert items == done + [item] + Items(url[ctxp..][v..], false, ENTRIES - count - 1);
      if LoneQuote(value) {
        assert items[|done|] == item;
        return Overrun;
      }
      var argument := Unquoted(value);
      var wurl := if IsSource(name) then argument else r.url;
      r := Arguments(r.names + [name], r.values + [argument], wurl);
      HoldsNext(done, item);
      done := done + [item];
      assert url[ctxp..][v..] == url[ctxp + v..];
      ctxp, count := ctxp + v, count + 1;
    }
    NothingLeft(url[ctxp..], false);
    assert items == done;
  }

  // a='
  lemma LoneQuoteIn(url: Text)
    requires url == [97, 61, 39]
    ensures 0 !in url && !NoLoneQuote(Items(url, false, ENTRIES - 1))
  {
    FirstIs(url, 1);
    WordStartIs(url, 0, 1);
    RunTo(url, NotBlank, 2, 3);
    hide First, WordStart, RunEnd;
    assert Items(url, false, ENTRIES - 1)[0] == Item(url[0..1], url[2..3]);
    assert LoneQuote(url[2..3]);
  }

  method QuoteOverruns(url: Text) returns (r: Arguments)
    requires url == [97, 61, 39]
    ensures r == Overrun
  {
    hide Items;
    LoneQuoteIn(url);
    r := ParseArgument(url);
  }

  lemma NothingLeft(s: Text, skip: bool)
    ensures Items(s, skip, 0) == []
  {
  }

  lemma NoZeroBehind(s: Text, i: nat)
    requires 0 !in s && i <= |s|
    ensures 0 !in s[i..]
  {
  }

  lemma HoldsNext(items: seq<Item>, item: Item)
    ensures SourceOf(items + [item]) == if IsSource(item.name) then Unquoted(item.value) else SourceOf(items)
  {
    assert (items + [item])[..|items|] == items;
  }

  function ValueOf(a: Attribute): Option<Text>
  {
    if a.quote.None? && a.value == [] then None else Some(a.value)
  }

  lemma UnquotedValue(a: Attribute)
    requires WellFormed(a)
    ensures Unquoted(Quoted(a)) == ValueOf(a) && !LoneQuote(Quoted(a)) && 0 !in PrintOne(a)
  {
    if a.quote.Some? {
      assert Quoted(a)[1..|Quoted(a)| - 1] == a.value;
    }
    assert forall c :: c in PrintOne(a) ==> c in a.name || c == 61 || c in Quoted(a);
  }

  lemma {:induction false} NoZeroPrinted(list: seq<Attribute>)
    requires AllWellFormed(list)
    ensures 0 !in PrintRest(list) && 0 !in Print(list)
    decreases |list|
  {
    if list != [] {
      UnquotedValue(list[0]);
      hide PrintOne, Quoted, Unquoted;
      NoZeroPrinted(list[1..]);
    }
  }

  lemma PrintedValues(list: seq<Attribute>, r: Arguments)
    requires AllWellFormed(list)
    ensures NoLoneQuote(ItemsOf(list))
    ensures Holds(r, ItemsOf(list)) ==> r.names[1..] == Names(list) && r.values[1..] == Values(list)
  {
    hide Unquoted, Quoted, LoneQuote, WellFormed, ValueOf, SourceOf, Ascii, IsSource;
    forall i | 0 <= i < |list|
      ensures Unquoted(Quoted(list[i])) == ValueOf(list[i]) && !LoneQuote(Quoted(list[i]))
    {
      UnquotedValue(list[i]);
    }
    var items := ItemsOf(list);
    assert forall i :: 0 <= i < |list| ==> items[i] == Item(list[i].name, Quoted(list[i]));
    if Holds(r, items) {
      forall i | 0 <= i < |list|
        ensures r.names[1..][i] == list[i].name && r.values[1..][i] == ValueOf(list[i])
      {
        assert r.names[i + 1] == items[i].name && r.values[i + 1] == Unquoted(items[i].value);
      }
    }
  }

  // For a well-formed list that fits the arrays, parse_argument gives back every name and every value
  // without its quotes.
  lemma PrintedArguments(list: seq<Attribute>, r: Arguments)
    requires AllWellFormed(list) && |list| < 100
    ensures 0 !in Print(list) && NoLoneQuote(Items(Print(list), false, ENTRIES - 1))
    ensures Holds(r, Items(Print(list), false, ENTRIES - 1)) ==> r.names[1..] == Names(list) && r.values[1..] == Values(list)
  {
    assert list[..Min(|list|, ENTRIES - 1)] == list && ListText(list, false) == Print(list);
    hide *;
    NoZeroPrinted(list);
    PrintedItems(list, false, false, ENTRIES - 1);
    PrintedValues(list, r);
  }

  // src or SRC
  predicate Src(name: Text) { name == [115, 114, 99] || name == [83, 82, 67] }

  lemma SrcIs(name: Text)
    ensures IsSource(name) <==> Src(name)
  {
    var lower, upper := Ascii("src"), Ascii("SRC");
    assert lower == [115, 114, 99];
    assert upper == [83, 82, 67];
    hide Ascii;
  }

  lemma {:induction false} LastSource(items: seq<Item>, i: nat)
    requires i < |items| && Src(items[i].name) && forall j :: i < j < |items| ==> !Src(items[j].name)
    ensures SourceOf(items) == Unquoted(items[i].value)
    decreases |items|
  {
    hide IsSource, Src, Unquoted;
    SrcIs(items[|items| - 1].name);
    if i < |items| - 1 {
      LastSource(items[..|items| - 1], i);
    }
  }

  lemma {:induction false} NoSource(items: seq<Item>)
    requires forall j :: 0 <= j < |items| ==> !Src(items[j].name)
    ensures SourceOf(items) == None
    decreases |items|
  {
    hide IsSource, Src, Unquoted;
    if items != [] {
      SrcIs(items[|items| - 1].name);
      NoSource(items[..|items| - 1]);
    }
  }

  // The address meant by a list: the value of its last attribute named src or SRC; none without it, or where
  // that value is empty and has no quotes.
  predicate Meant(list: seq<Attribute>, url: Option<Text>)
  {
    && ((forall j :: 0 <= j < |list| ==> !Src(list[j].name)) ==> url == None)
    && forall i :: 0 <= i < |list| && Src(list[i].name) && (forall j :: i < j < |list| ==> !Src(list[j].name)) ==>
        url == if list[i].value == [] && list[i].quote.None? then None else Some(list[i].value)
  }

  lemma SourceMeant(list: seq<Attribute>)
    requires AllWellFormed(list)
    ensures Meant(list, SourceOf(ItemsOf(list)))
  {
    hide Src, Unquoted, Quoted, AllWellFormed, WellFormed, SourceOf;
    var items := ItemsOf(list);
    assert forall i :: 0 <= i < |list| ==> items[i] == Item(list[i].name, Quoted(list[i]));
    if forall j :: 0 <= j < |list| ==> !Src(list[j].name) {
      NoSource(items);
    }
    forall i | 0 <= i < |list| && Src(list[i].name) && (forall j :: i < j < |list| ==> !Src(list[j].name))
      ensures SourceOf(items) == if list[i].value == [] && list[i].quote.None? then None else Some(list[i].value)
    {
      LastSource(items, i);
      OneWellFormed(list, i);
      UnquotedValue(list[i]);
    }
  }

  // parse_argument gives the address that is meant.
  lemma PrintedAddress(list: seq<Attribute>, r: Arguments)
    requires AllWellFormed(list) && |list| < 100 && Holds(r, Items(Print(list), false, ENTRIES - 1))
    ensures Meant(list, r.url)
  {
    assert list[..Min(|list|, ENTRIES - 1)] == list && ListText(list, false) == Print(list);
    UrlHeld(r, Items(Print(list), false, ENTRIES - 1));
    hide *;
    PrintedItems(list, false, false, ENTRIES - 1);
    SourceMeant(list);
  }

  lemma UrlHeld(r: Arguments, items: seq<Item>)
    requires Holds(r, items)
    ensures r.Arguments? && r.url == SourceOf(items)
  {
  }

  lemma OneWellFormed(list: seq<Attribute>, i: nat)
    requires AllWellFormed(list) && i < |list|
    ensures WellFormed(list[i])
  {
  }

  function Names(list: seq<Attribute>): seq<Text>
  {
    seq(|list|, i requires 0 <= i < |list| => list[i].name)
  }

  function Values(list: seq<Attribute>): seq<Option<Text>>
  {
    seq(|list|, i requires 0 <= i < |list| => ValueOf(list[i]))
  }

  // The C string at a place of a buffer.
  function StringAt(buf: seq<byte>, p: nat): Text
    requires p <= |buf|
  {
    CString(buf[p..])
  }

  // Pointers into the buffer to the names and values of items, all before place end.
  predicate Points(buf: seq<byte>, end: nat, argn: seq<nat>, argv: seq<Option<nat>>, items: seq<Item>)
  {
    && |argn| == |argv| == |items| && end <= |buf|
    && (forall i :: 0 <= i < |items| ==> argn[i] < end && Ends(buf, argn[i], end, items[i].name))
    && (forall i :: 0 <= i < |items| ==> (argv[i].None? <==> items[i].value == []))
    && (forall i :: 0 <= i < |items| && argv[i].Some? ==> argv[i].value < end && Ends(buf, argv[i].value, end, items[i].value))
  }

  // The C string at p is t, and its zero stands before end.
  predicate Ends(buf: seq<byte>, p: nat, end: nat, t: Text)
    requires p <= end <= |buf|
  {
    p + |t| < end && buf[p..p + |t|] == t && buf[p + |t|] == 0 && 0 !in t
  }

  // The C string at the cursor of a buffer whose own string was s.
  lemma StringBehind(was: seq<byte>, now: seq<byte>, c: nat)
    requires 0 in was && |now| == |was| && c <= |CString(was)| && now[c..] == was[c..]
    ensures StringAt(now, c) == CString(was)[c..] && 0 in now[c..]
    ensures |CString(was)| < |was| && was[|CString(was)|] == 0
  {
    var s := CString(was);
    CStringShort(was);
    var n := |s| - c;
    assert now[c..][n] == was[c..][n] == 0;
    assert was[c..][..n] == s[c..];
    assert now[c..][..n] == s[c..];
    CStringIs(now[c..], n);
  }

  lemma EndsKept(was: seq<byte>, now: seq<byte>, end: nat, end': nat, p: nat, t: Text)
    requires |now| == |was| && p <= end <= end' <= |now| && now[..end] == was[..end] && Ends(was, p, end, t)
    ensures Ends(now, p, end', t)
  {
    assert now[p..p + |t|] == now[..end][p..p + |t|] && was[p..p + |t|] == was[..end][p..p + |t|];
    assert now[p + |t|] == now[..end][p + |t|] && was[p + |t|] == was[..end][p + |t|];
  }

  // Changes from place end on leave earlier strings alone.
  lemma PointsKept(was: seq<byte>, now: seq<byte>, end: nat, end': nat, argn: seq<nat>, argv: seq<Option<nat>>, items: seq<Item>)
    requires Points(was, end, argn, argv, items) && |now| == |was| && end <= end' <= |now| && now[..end] == was[..end]
    ensures Points(now, end', argn, argv, items)
  {
    hide Ends;
    forall i | 0 <= i < |items|
      ensures Ends(now, argn[i], end', items[i].name)
      ensures argv[i].Some? ==> Ends(now, argv[i].value, end', items[i].value)
    {
      EndsKept(was, now, end, end', argn[i], items[i].name);
      if argv[i].Some? {
        EndsKept(was, now, end, end', argv[i].value, items[i].value);
      }
    }
  }

  // A name and a value cut out of the buffer by the two zeros.
  lemma CutOut(was: seq<byte>, now: seq<byte>, n: nat, x: nat, v: nat)
    requires n <= x < v < |was| && now == was[x := 0][v := 0] && 0 !in was[n..x] && 0 !in was[x + 1..v]
    ensures Ends(now, n, v + 1, was[n..x]) && Ends(now, x + 1, v + 1, was[x + 1..v])
  {
    assert now[n..x] == was[n..x] && now[x + 1..v] == was[x + 1..v];
  }

  lemma PointsNext(was: seq<byte>, now: seq<byte>, end: nat, n: nat, x: nat, v: nat,
                   argn: seq<nat>, argv: seq<Option<nat>>, items: seq<Item>)
    requires Points(was, end, argn, argv, items) && end <= n <= x < v < |was|
    requires now == was[x := 0][v := 0] && 0 !in was[n..x] && 0 !in was[x + 1..v]
    ensures Points(now, v + 1, argn + [n], argv + [if v > x + 1 then Some(x + 1) else None],
                   items + [Item(was[n..x], was[x + 1..v])])
  {
    hide Ends;
    PointsKept(was, now, end, v + 1, argn, argv, items);
    CutOut(was, now, n, x, v);
  }

  // Places in the text behind the cursor are places in the buffer.
  lemma Behind(buf: seq<byte>, c: nat, text: Text, n: nat, x: nat, v: nat)
    requires c <= |buf| && text == StringAt(buf, c) && n <= x < v <= |text| && 0 in buf[c..]
    ensures c + v < |buf| && text[n..x] == buf[c + n..c + x] && text[x + 1..v] == buf[c + x + 1..c + v]
    ensures 0 !in text[n..x] && 0 !in text[x + 1..v]
  {
    CStringShort(buf[c..]);
    var rest := buf[c..];
    assert text == rest[..|text|];
    hide StringAt;
    assert text[n..x] == rest[n..x] && rest[n..x] == buf[c + n..c + x];
    assert text[x + 1..v] == rest[x + 1..v] && rest[x + 1..v] == buf[c + x + 1..c + v];
    NoZeroPart(text, n, x);
    NoZeroPart(text, x + 1, v);
  }

  // The two zeros that cut an attribute out of the buffer.
  method Cut(varList: array<byte>, xp: nat, vp: nat)
    requires xp < vp < varList.Length
    modifies varList
    ensures varList[..] == old(varList[..])[xp := 0][vp := 0]
  {
    varList[xp] := 0;
    varList[vp] := 0;
  }

  // One round of ParseVarList: the attribute at the cursor is cut out and pointed to.
  method TakeItem(varList: array<byte>, ctxp: nat, left: nat, ghost end: nat, ghost argn: seq<nat>, ghost argv: seq<Option<nat>>, ghost done: seq<Item>)
    returns (r: Option<(nat, Option<nat>, nat)>, ghost item: Item, ghost v: nat)
    requires ctxp <= end <= varList.Length && 0 in varList[ctxp..] && left > 0 && Points(varList[..], end, argn, argv, done)
    requires end == ctxp || StringAt(varList[..], ctxp) == []
    modifies varList
    ensures var s := old(StringAt(varList[..], ctxp));
      match r
      case None => Items(s, true, left) == [] && Points(varList[..], end, argn, argv, done)
      case Some((name, value, next)) =>
        && v <= |s| && ctxp + v < varList.Length && next == ctxp + (if v < |s| then v + 1 else v)
        && Items(s, true, left) == [item] + Items(Rest(s, v, true), true, left - 1)
        && Points(varList[..], ctxp + v + 1, argn + [name], argv + [value], done + [item])
        && varList[ctxp + v + 1..] == old(varList[ctxp + v + 1..]) && varList[ctxp + v] == 0
  {
    hide Items, CString, Points, Ends, First, Rest;
    var text := StringAt(varList[..], ctxp);
    NoZeroIn(varList[ctxp..]);
    var found := NextItem(text, left);
    v, item := 0, Item([], []);
    if found.None? { return None, item, v; }
    var (n, x, w) := found.value;
    v, item := w, Item(text[n..x], text[x + 1..w]);
    ghost var was := varList[..];
    Behind(was, ctxp, text, n, x, w);
    Cut(varList, ctxp + x, ctxp + w);
    PointsNext(was, varList[..], end, ctxp + n, ctxp + x, ctxp + w, argn, argv, done);
    CutBehind(was, varList[..], ctxp + x, ctxp + w);
    r := Some((ctxp + n, if w > x + 1 then Some(ctxp + x + 1) else None, ctxp + (if w < |text| then w + 1 else w)));
  }

  lemma CutBehind(was: seq<byte>, now: seq<byte>, x: nat, v: nat)
    requires x < v < |was| && now == was[x := 0][v := 0]
    ensures now[v + 1..] == was[v + 1..] && now[v] == 0
  {
  }

  lemma TailKept(first: seq<byte>, was: seq<byte>, now: seq<byte>, c: nat, e: nat, next: nat)
    requires |first| == |was| == |now| && c <= next <= e <= |now|
    requires was[c..] == first[c..] && now[e..] == was[e..]
    requires next == e || (next + 1 == e && now[next] == first[next])
    ensures now[next..] == first[next..]
  {
    assert was[e..] == was[c..][e - c..] && first[e..] == first[c..][e - c..];
    assert next < e ==> now[next..] == [now[next]] + now[e..] && first[next..] == [first[next]] + first[e..];
  }

  lemma NoZeroIn(s: seq<byte>)
    ensures 0 !in CString(s)
  {
  }

  // Where the loop of ParseVarList stands: the items of s so far are pointed to, before place end, and from
  // its cursor on the buffer is as it was.
  ghost predicate Parsed(s: Text, items: seq<Item>, done: seq<Item>, ctxp: nat, left: nat, end: nat,
                         first: seq<byte>, buf: seq<byte>, argn: seq<nat>, argv: seq<Option<nat>>)
  {
    && |buf| == |first| && ctxp <= |s| && ctxp <= end <= |buf| && (end == ctxp || ctxp == |s|)
    && buf[ctxp..] == first[ctxp..]
    && items == done + Items(s[ctxp..], true, left)
    && Points(buf, end, argn, argv, done)
  }

  lemma ParsedNext(s: Text, items: seq<Item>, done: seq<Item>, ctxp: nat, left: nat, end: nat, first: seq<byte>,
                   was: seq<byte>, now: seq<byte>, argn: seq<nat>, argv: seq<Option<nat>>,
                   item: Item, v: nat, name: nat, value: Option<nat>, next: nat)
    requires Parsed(s, items, done, ctxp, left, end, first, was, argn, argv) && left > 0 && |now| == |was|
    requires s == CString(first) && v <= |s[ctxp..]| && ctxp + v < |now| && |s| < |first| && first[|s|] == 0
    requires next == ctxp + (if v < |s[ctxp..]| then v + 1 else v)
    requires Items(s[ctxp..], true, left) == [item] + Items(Rest(s[ctxp..], v, true), true, left - 1)
    requires Points(now, ctxp + v + 1, argn + [name], argv + [value], done + [item])
    requires now[ctxp + v + 1..] == was[ctxp + v + 1..] && now[ctxp + v] == 0
    ensures Parsed(s, items, done + [item], next, left - 1, ctxp + v + 1, first, now, argn + [name], argv + [value])
  {
    hide Items, CString, Points;
    assert Rest(s[ctxp..], v, true) == s[next..];
    TailKept(first, was, now, ctxp, ctxp + v + 1, next);
    assert items == (done + [item]) + Items(s[next..], true, left - 1);
  }

  lemma ParsedStart(first: seq<byte>, count: nat)
    ensures var s := CString(first);
      Parsed(s, Items(s, true, count), [], 0, count, 0, first, first, [], [])
  {
    hide Items, CString;
    NoPointers(first);
    var s := CString(first);
    assert s[0..] == s;
  }

  // ParseVarList: the names and values stay in the buffer, cut apart by zeros.
  method ParseVarList(varList: array<byte>, count: nat) returns (argn: seq<nat>, argv: seq<Option<nat>>)
    requires 0 in varList[..]
    modifies varList
    ensures Points(varList[..], varList.Length, argn, argv, Items(CString(old(varList[..])), true, count))
  {
    hide Items, CString, Points, Ends, First, StringAt, Rest;
    ghost var first := varList[..];
    ghost var s := CString(first);
    ghost var items := Items(s, true, count);
    ghost var done: seq<Item>, end: nat := [], 0;
    argn, argv := [], [];
    var ctxp: nat, left: nat := 0, count;
    ParsedStart(first, count);
    while left > 0
      invariant Parsed(s, items, done, ctxp, left, end, first, varList[..], argn, argv)
      decreases left
    {
      StringBehind(first, varList[..], ctxp);
      assert ctxp == |s| ==> s[ctxp..] == [];
      ghost var was := varList[..];
      var next;
      ghost var item, v;
      next, item, v := TakeItem(varList, ctxp, left, end, argn, argv, done);
      if next.None? {
        NoneLeft(s, items, done, ctxp, left);
        PointsKept(varList[..], varList[..], end, varList.Length, argn, argv, done);
        return;
      }
      ParsedNext(s, items, done, ctxp, left, end, first, was, varList[..], argn, argv, item, v, next.value.0, next.value.1, next.value.2);
      argn, argv := argn + [next.value.0], argv + [next.value.1];
      done := done + [item];
      end := ctxp + v + 1;
      left := left - 1;
      ctxp := next.value.2;
    }
    NothingLeft(s[ctxp..], true);
    NoneLeft(s, items, done, ctxp, left);
    PointsKept(varList[..], varList[..], end, varList.Length, argn, argv, done);
  }

  lemma NoneLeft(s: Text, items: seq<Item>, done: seq<Item>, ctxp: nat, left: nat)
    requires ctxp <= |s| && items == done + Items(s[ctxp..], true, left) && Items(s[ctxp..], true, left) == []
    ensures items == done
  {
    hide Items;
  }

  lemma NoPointers(buf: seq<byte>)
    ensures Points(buf, 0, [], [], [])
  {
  }

  lemma EndsString(buf: seq<byte>, p: nat, end: nat, t: Text)
    requires p <= end <= |buf| && Ends(buf, p, end, t)
    ensures StringAt(buf, p) == t
  {
    assert buf[p..][..|t|] == t;
    CStringIs(buf[p..], |t|);
  }

  // For a well-formed list within the count, ParseVarList's pointers lead to every name and to every
  // value with its quotes.
  lemma PrintedVarList(list: seq<Attribute>, count: nat, was: seq<byte>, junk: seq<byte>,
                       buf: seq<byte>, argn: seq<nat>, argv: seq<Option<nat>>)
    requires AllWellFormed(list) && |list| <= count && was == Print(list) + [0] + junk
    requires Points(buf, |buf|, argn, argv, Items(CString(was), true, count))
    ensures |argn| == |argv| == |list|
    ensures forall i :: 0 <= i < |list| ==> argn[i] <= |buf| && StringAt(buf, argn[i]) == list[i].name
    ensures forall i :: 0 <= i < |list| ==> (argv[i].None? <==> Quoted(list[i]) == [])
    ensures forall i :: 0 <= i < |list| && argv[i].Some? ==> argv[i].value <= |buf| && StringAt(buf, argv[i].value) == Quoted(list[i])
  {
    ReadsPrinted(list, count, was, junk);
    var items := Items(CString(was), true, count);
    hide Items, CString, AllWellFormed, Print, Quoted, Ends, StringAt;
    forall i | 0 <= i < |list|
      ensures argn[i] <= |buf| && StringAt(buf, argn[i]) == list[i].name
      ensures argv[i].Some? ==> argv[i].value <= |buf| && StringAt(buf, argv[i].value) == Quoted(list[i])
    {
      assert items[i] == ItemOf(list[i]);
      EndsString(buf, argn[i], |buf|, list[i].name);
      if argv[i].Some? {
        EndsString(buf, argv[i].value, |buf|, Quoted(list[i]));
      }
    }
  }

  lemma ReadsPrinted(list: seq<Attribute>, count: nat, was: seq<byte>, junk: seq<byte>)
    requires AllWellFormed(list) && |list| <= count && was == Print(list) + [0] + junk
    ensures Items(CString(was), true, count) == ItemsOf(list) && |ItemsOf(list)| == |list|
    ensures forall i :: 0 <= i < |list| ==> ItemsOf(list)[i] == ItemOf(list[i])
  {
    NoZeroPrinted(list);
    assert was[..|Print(list)|] == Print(list);
    CStringIs(was, |Print(list)|);
    assert list[..Min(|list|, count)] == list && ListText(list, false) == Print(list);
    hide Items, CString, AllWellFormed, Print;
    PrintedItems(list, true, false, count);
  }
}
