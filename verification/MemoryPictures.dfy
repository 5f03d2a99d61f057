/**
 What a reader of the report finds of a memory location: a reader of the written events, and a relation, said without
 the writers, between an address and what is read of it.
 */
module MemoryPictures {
  import opened Basics
  import opened MemoryIntrospection

  /** A member of a container: a text, a figure, or a container inside. */
  datatype Item = Line(key: string, text: string) | Figure(key: string) | Box(key: string, items: seq<Item>)

  /** The members up to the end of the container, and the events from there on. */
  function Read(es: seq<Event>): (r: (seq<Item>, seq<Event>))
    ensures |r.1| <= |es|
    decreases |es|
  {
    if es == [] then ([], [])
    else
      match es[0]
      case End => ([], es)
      case Element(key, text) =>
        var (more, rest) := Read(es[1..]);
        ([Line(key, text)] + more, rest)
      case Numeric(key) =>
        var (more, rest) := Read(es[1..]);
        ([Figure(key)] + more, rest)
      case Begin(key) =>
        var (inside, after) := Read(es[1..]);
        var (more, rest) := Read(if after == [] then [] else after[1..]);
        ([Box(key, inside)] + more, rest)
  }

  /** The events of members. */
  function Print(items: seq<Item>): seq<Event> {
    if items == [] then [] else PrintItem(items[0]) + Print(items[1..])
  }

  function PrintItem(item: Item): seq<Event> {
    match item
    case Line(key, text) => [Element(key, text)]
    case Figure(key) => [Numeric(key)]
    case Box(key, items) => [Begin(key)] + Print(items) + [End]
  }

  lemma {:induction false} PrintConcat(a: seq<Item>, b: seq<Item>)
    ensures Print(a + b) == Print(a) + Print(b)
    decreases |a|
  {
    if a == [] {
      assert a + b == b;
    } else {
      assert (a + b)[0] == a[0] && (a + b)[1..] == a[1..] + b;
      PrintConcat(a[1..], b);
    }
  }

  lemma PrintOne(item: Item)
    ensures Print([item]) == PrintItem(item)
  {
    assert [item][1..] == [];
  }

  lemma Reorder(first: Event, inside: seq<Event>, more: seq<Event>, rest: seq<Event>)
    ensures var es := [first] + inside + [End] + more + rest;
      es != [] && es[0] == first && es[1..] == inside + ([End] + (more + rest)) && ([End] + (more + rest))[1..] == more + rest
    ensures var es := [first] + more + rest; es != [] && es[0] == first && es[1..] == more + rest
  {
  }

  /** Members are read back as they were printed. */
  lemma {:induction false} ReadPrinted(items: seq<Item>, rest: seq<Event>)
    requires rest == [] || rest[0] == End
    ensures Read(Print(items) + rest) == (items, rest)
    decreases items
  {
    if items == [] {
      assert Print(items) + rest == rest;
    } else {
      var more := Print(items[1..]);
      assert Print(items) == PrintItem(items[0]) + more;
      ReadPrinted(items[1..], rest);
      assert items == [items[0]] + items[1..];
      hide Print;
      match items[0] {
        case Line(key, text) => Reorder(Element(key, text), [], more, rest);
        case Figure(key) => Reorder(Numeric(key), [], more, rest);
        case Box(key, inside) =>
          Reorder(Begin(key), Print(inside), more, rest);
          ReadPrinted(inside, [End] + (more + rest));
      }
    }
  }

  // ------------------------------------------------------------------------------------- what is to be read

  /** The texts of a name, the names of the figures, and those of the containers, each in order. */
  function Texts(items: seq<Item>, key: string): seq<string> {
    Each(items, (item: Item) => if item.Line? && item.key == key then [item.text] else [])
  }

  function Figures(items: seq<Item>): seq<string> {
    Each(items, (item: Item) => if item.Figure? then [item.key] else [])
  }

  function Boxes(items: seq<Item>): seq<string> {
    Each(items, (item: Item) => if item.Box? then [item.key] else [])
  }

  function Each(items: seq<Item>, part: Item -> seq<string>): seq<string> {
    if items == [] then [] else part(items[0]) + Each(items[1..], part)
  }

  /** An object of a class that may be looked into. */
  predicate IsOpen(m: Memory, a: Address) {
    a in m.objects && m.objects[a].Instance? && m.objects[a].className !in m.restricted
  }

  /** No object is there, or one of a class that must not be looked into. */
  predicate IsPlain(m: Memory, a: Address) {
    a in m.objects ==> m.objects[a].Instance? && m.objects[a].className in m.restricted
  }

  /** The types name exactly what is there. */
  ghost predicate TypesAre(m: Memory, a: Address, types: seq<string>) {
    && ("objc_class" in types <==> a in m.objects && m.objects[a].Class?)
    && ("objc_block" in types <==> a in m.objects && m.objects[a].Block?)
    && ("objc_object" in types <==> a in m.objects && m.objects[a].Instance?)
    && ("null_pointer" in types <==> IsPlain(m, a) && a == 0)
    && ("string" in types <==> IsPlain(m, a) && a != 0 && a in m.strings)
    && ("unknown" in types <==> IsPlain(m, a) && a != 0 && a !in m.strings)
    && |types| == if a in m.objects && IsPlain(m, a) then 2 else 1
  }

  /** Class, value, address and the object deallocated there. */
  ghost predicate ValuesAre(m: Memory, a: Address, items: seq<Item>) {
    && Texts(items, "class") == (if a in m.objects then [m.objects[a].className] else [])
    && Texts(items, "value")
       == (if IsPlain(m, a) && a != 0 && a in m.strings then [m.strings[a]]
           else if IsOpen(m, a) && m.objects[a].contents.Text? && m.objects[a].contents.text.Some?
           then [m.objects[a].contents.text.value] else [])
    && Figures(items) == ["address"] + (if IsOpen(m, a) && m.objects[a].contents.Number? then ["value"] else [])
    && Texts(items, "last_deallocated_obj") == (if a in m.zombies then [m.zombies[a]] else [])
  }

  /** What is read of an address is what is there; `left` is what is left of the limit. */
  ghost predicate Pictures(m: Memory, a: Address, limit: int, items: seq<Item>, left: int)
    decreases items, 2
  {
    TypesAre(m, a, Texts(items, "type")) && ValuesAre(m, a, items) && InsidesAre(m, a, limit, items, left)
  }

  /** As far as the limit allows, the first object of an array and the instance variables of other objects. */
  ghost predicate InsidesAre(m: Memory, a: Address, limit: int, items: seq<Item>, left: int)
    decreases items, 1
  {
    if !IsOpen(m, a) || limit <= 1 then Boxes(items) == [] && left == limit - 1
    else
      match m.objects[a].contents
      case Array(Some(first)) =>
        && Boxes(items) == ["first_object"]
        && forall i | 0 <= i < |items| && items[i].Box? :: Pictures(m, first, limit - 1, items[i].items, left)
      case Tagged =>
        && Boxes(items) == ["ivars"] && left == limit - 2
        && forall i | 0 <= i < |items| && items[i].Box? :: items[i].items == [Figure("tagged_payload")]
      case Other(ivars) =>
        var listed := if |ivars| > 10 then ivars[..10] else ivars;
        && Boxes(items) == ["ivars"]
        && forall i | 0 <= i < |items| && items[i].Box? ::
             IvarsPictured(m, listed, limit - 2 - |listed|, items[i].items, left)
      case _ => Boxes(items) == [] && left == limit - 1
  }

  /** Instance variables in order, but for those of unknown type; each pointer is followed with what is left of the limit. */
  ghost predicate IvarsPictured(m: Memory, ivars: seq<Ivar>, limit: int, items: seq<Item>, left: int)
    decreases items, 0, |ivars|
  {
    if ivars == [] then items == [] && left == limit
    else
      match ivars[0]
      case UnknownIvar(_) => IvarsPictured(m, ivars[1..], limit, items, left)
      case PlainIvar(name) => items != [] && items[0] == Figure(name) && IvarsPictured(m, ivars[1..], limit, items[1..], left)
      case PointerIvar(name, pointer) =>
        && items != [] && items[0].Box? && items[0].key == name
        && exists after ::
             Pictures(m, pointer, limit, items[0].items, after) && IvarsPictured(m, ivars[1..], after, items[1..], left)
  }

  // -------------------------------------------------------------------------------------------------- the proof

  lemma {:induction false} EachConcat(a: seq<Item>, b: seq<Item>, part: Item -> seq<string>)
    ensures Each(a + b, part) == Each(a, part) + Each(b, part)
    decreases |a|
  {
    if a == [] {
      assert a + b == b;
    } else {
      assert (a + b)[0] == a[0] && (a + b)[1..] == a[1..] + b;
      EachConcat(a[1..], b, part);
    }
  }

  /** What is before the contents, the contents, and what is after. */
  lemma ThreeParts(a: seq<Item>, b: seq<Item>, c: seq<Item>, key: string)
    ensures Texts(a + b + c, key) == Texts(a, key) + Texts(b, key) + Texts(c, key)
    ensures Figures(a + b + c) == Figures(a) + Figures(b) + Figures(c)
    ensures Boxes(a + b + c) == Boxes(a) + Boxes(b) + Boxes(c)
  {
    var text := (item: Item) => if item.Line? && item.key == key then [item.text] else [];
    var figure := (item: Item) => if item.Figure? then [item.key] else [];
    var box := (item: Item) => if item.Box? then [item.key] else [];
    hide Each;
    EachConcat(a + b, c, text);
    EachConcat(a, b, text);
    EachConcat(a + b, c, figure);
    EachConcat(a, b, figure);
    EachConcat(a + b, c, box);
    EachConcat(a, b, box);
  }

  lemma OneSays(item: Item, key: string)
    ensures Texts([item], key) == (if item.Line? && item.key == key then [item.text] else [])
    ensures Figures([item]) == (if item.Figure? then [item.key] else [])
    ensures Boxes([item]) == (if item.Box? then [item.key] else [])
  {
    EachOne(item, (i: Item) => if i.Line? && i.key == key then [i.text] else []);
    EachOne(item, (i: Item) => if i.Figure? then [i.key] else []);
    EachOne(item, (i: Item) => if i.Box? then [i.key] else []);
    hide Each;
  }

  lemma EachOne(item: Item, part: Item -> seq<string>)
    ensures Each([item], part) == part(item)
  {
    assert [item][1..] == [] && part(item) + [] == part(item);
  }

  lemma NoneSays(key: string)
    ensures Texts([], key) == [] && Figures([]) == [] && Boxes([]) == []
  {
  }

  lemma TwoSay(x: Item, y: Item, key: string)
    requires x.Line? && y.Line?
    ensures Texts([x, y], key) == (if x.key == key then [x.text] else []) + (if y.key == key then [y.text] else [])
    ensures Figures([x, y]) == [] && Boxes([x, y]) == []
  {
    OneSays(x, key);
    OneSays(y, key);
    NoneSays(key);
    ThreeParts([x], [y], [], key);
    assert [x] + [y] + [] == [x, y];
    hide Texts, Figures, Boxes;
  }

  function Optional(key: string, m: map<Address, string>, a: Address): seq<Item> {
    if a in m then [Line(key, m[a])] else []
  }

  function TypeOf(o: Object): string {
    match o
    case Class(_) => "objc_class"
    case Block(_) => "objc_block"
    case Instance(_, _) => "objc_object"
  }

  /** The type and the class of an object. */
  function ObjectLines(m: Memory, a: Address): seq<Item> {
    if a in m.objects then [Line("type", TypeOf(m.objects[a])), Line("class", m.objects[a].className)] else []
  }

  /** The members before the contents. */
  function Opening(m: Memory, a: Address): seq<Item> {
    [Figure("address")] + Optional("last_deallocated_obj", m.zombies, a) + ObjectLines(m, a)
  }

  /** The members of a location without an open object. */
  function Closing(m: Memory, a: Address): seq<Item> {
    if !IsPlain(m, a) then []
    else if a == 0 then [Line("type", "null_pointer")]
    else if a in m.strings then [Line("type", "string"), Line("value", m.strings[a])]
    else [Line("type", "unknown")]
  }

  lemma OpeningSays(m: Memory, a: Address, key: string)
    ensures Texts(Opening(m, a), key)
         == (if key == "last_deallocated_obj" && a in m.zombies then [m.zombies[a]] else [])
            + if a !in m.objects then []
              else (if key == "type" then [TypeOf(m.objects[a])] else []) + (if key == "class" then [m.objects[a].className] else [])
    ensures Figures(Opening(m, a)) == ["address"] && Boxes(Opening(m, a)) == []
  {
    var z, o := Optional("last_deallocated_obj", m.zombies, a), ObjectLines(m, a);
    hide Texts, Figures, Boxes;
    ThreeParts([Figure("address")], z, o, key);
    OneSays(Figure("address"), key);
    NoneSays(key);
    if a in m.zombies { OneSays(Line("last_deallocated_obj", m.zombies[a]), key); }
    if a in m.objects { TwoSay(o[0], o[1], key); }
  }

  lemma ClosingSays(m: Memory, a: Address, key: string)
    ensures Texts(Closing(m, a), key)
         == (if key == "type" && IsPlain(m, a) then [if a == 0 then "null_pointer" else if a in m.strings then "string" else "unknown"] else [])
            + (if key == "value" && IsPlain(m, a) && a != 0 && a in m.strings then [m.strings[a]] else [])
    ensures Figures(Closing(m, a)) == [] && Boxes(Closing(m, a)) == []
  {
    hide Texts, Figures, Boxes;
    var s := Closing(m, a);
    NoneSays(key);
    if |s| == 1 { OneSays(s[0], key); }
    if |s| == 2 { TwoSay(s[0], s[1], key); }
  }

  lemma {:induction false} NamesDiffer()
    ensures "type" != "class" && "type" != "value" && "class" != "value"
    ensures "type" != "last_deallocated_obj" && "class" != "last_deallocated_obj" && "value" != "last_deallocated_obj"
    ensures "objc_class" != "objc_block" && "objc_class" != "objc_object" && "objc_block" != "objc_object"
    ensures forall x, y | x in ["objc_class", "objc_block", "objc_object"] && y in ["null_pointer", "string", "unknown"] :: x != y
    ensures "null_pointer" != "string" && "null_pointer" != "unknown" && "string" != "unknown"
  {
    assert "class"[0] != "value"[0] && "objc_class"[5] != "objc_block"[5];
    assert |"type"| == 4 && |"class"| == 5 && |"value"| == 5 && |"last_deallocated_obj"| == 20;
    assert |"objc_class"| == 10 && |"objc_block"| == 10 && |"objc_object"| == 11;
    assert |"null_pointer"| == 12 && |"string"| == 6 && |"unknown"| == 7;
  }

  lemma PrintTwo(x: Item, y: Item)
    ensures Print([x, y]) == PrintItem(x) + PrintItem(y)
  {
    assert [x, y] == [x] + [y];
    PrintConcat([x], [y]);
    PrintOne(x);
    PrintOne(y);
    hide Print;
  }

  /** The events of what is not a container. */
  lemma OpeningPrinted(m: Memory, key: string, a: Address)
    ensures [Begin(key)] + Print(Opening(m, a))
         == Head(m, key, a) + if a !in m.objects then [] else WriteObjectHead(m.objects[a])
  {
    var z, o := Optional("last_deallocated_obj", m.zombies, a), ObjectLines(m, a);
    PrintConcat([Figure("address")] + z, o);
    PrintConcat([Figure("address")], z);
    PrintOne(Figure("address"));
    if a in m.zombies { PrintOne(Line("last_deallocated_obj", m.zombies[a])); }
    if a in m.objects { PrintTwo(o[0], o[1]); }
    assert Print([]) == [];
    hide Print;
  }

  lemma ClosingPrinted(m: Memory, a: Address)
    ensures Print(Closing(m, a)) == if IsDone(m, a) then [] else Fallback(m, a)
  {
    var c := Closing(m, a);
    assert Print([]) == [];
    hide Print;
    if |c| == 1 { PrintOne(c[0]); }
    if |c| == 2 { PrintTwo(c[0], c[1]); }
  }

  /** The two elements that every object begins with. */
  function WriteObjectHead(o: Object): seq<Event> {
    match o
    case Class(name) => [Element("type", "objc_class"), Element("class", name)]
    case Block(name) => [Element("type", "objc_block"), Element("class", name)]
    case Instance(name, _) => [Element("type", "objc_object"), Element("class", name)]
  }

  /** What the contents of an open object come to. */
  ghost predicate ContentsAre(m: Memory, contents: Contents, limit: int, inner: seq<Item>, left: int) {
    match contents
    case Text(text) => inner == (if text.Some? then [Line("value", text.value)] else []) && left == limit
    case Number => inner == [Figure("value")] && left == limit
    case Array(first) =>
      if limit > 0 && first.Some?
      then |inner| == 1 && inner[0].Box? && inner[0].key == "first_object"
           && Pictures(m, first.value, limit, inner[0].items, left)
      else inner == [] && left == limit
    case Tagged =>
      if limit > 0 then inner == [Box("ivars", [Figure("tagged_payload")])] && left == limit - 1 else inner == [] && left == limit
    case Other(ivars) =>
      var listed := if |ivars| > 10 then ivars[..10] else ivars;
      if limit > 0
      then |inner| == 1 && inner[0].Box? && inner[0].key == "ivars"
           && IvarsPictured(m, listed, limit - 1 - |listed|, inner[0].items, left)
      else inner == [] && left == limit
  }

  lemma {:induction false} ContentsPictured(m: Memory, contents: Contents, limit: int) returns (inner: seq<Item>)
    ensures var w := WriteContents(m, contents, limit);
      Print(inner) == w.events && ContentsAre(m, contents, limit, inner, w.limit)
    decreases 4 * Max(limit + 1, 0), 0
  {
    hide Pictures, IvarsPictured;
    inner := [];
    match contents {
      case Text(text) =>
        if text.Some? {
          inner := [Line("value", text.value)];
          PrintOne(inner[0]);
        }
      case Number =>
        inner := [Figure("value")];
        PrintOne(inner[0]);
      case Array(first) =>
        if limit > 0 && first.Some? {
          var items := MemoryPictured(m, "first_object", first.value, limit);
          inner := [Box("first_object", items)];
          PrintOne(inner[0]);
        }
      case Tagged =>
        if limit > 0 {
          inner := [Box("ivars", [Figure("tagged_payload")])];
          PrintOne(Figure("tagged_payload"));
          PrintOne(inner[0]);
        }
      case Other(ivars) =>
        if limit > 0 {
          var items := IvarsArePictured(m, Listed(ivars), limit - 1 - |Listed(ivars)|);
          inner := [Box("ivars", items)];
          PrintOne(inner[0]);
        }
    }
  }

  lemma {:induction false} IvarsArePictured(m: Memory, ivars: seq<Ivar>, limit: int) returns (items: seq<Item>)
    ensures var w := WriteIvars(m, ivars, limit);
      Print(items) == w.events && IvarsPictured(m, ivars, limit, items, w.limit)
    decreases 4 * Max(limit, 0) + 3, |ivars|
  {
    items := [];
    if ivars != [] {
      hide Pictures;
      var first := WriteIvar(m, ivars[0], limit);
      var more := IvarsArePictured(m, ivars[1..], first.limit);
      match ivars[0] {
        case UnknownIvar(_) => items := more;
        case PlainIvar(name) =>
          items := [Figure(name)] + more;
          PrintConcat([Figure(name)], more);
          PrintOne(Figure(name));
          assert items[1..] == more;
        case PointerIvar(name, pointer) =>
          var inside := MemoryPictured(m, name, pointer, limit);
          items := [Box(name, inside)] + more;
          PrintConcat([Box(name, inside)], more);
          PrintOne(Box(name, inside));
          assert items[1..] == more;
      }
    }
  }

  lemma {:induction false} MemoryPictured(m: Memory, key: string, a: Address, limit: int) returns (items: seq<Item>)
    ensures var w := WriteMemory(m, key, a, limit);
      w.events == PrintItem(Box(key, items)) && Pictures(m, a, limit, items, w.limit)
    decreases 4 * Max(limit, 0) + 2, 0
  {
    var inner: seq<Item> := [];
    if IsOpen(m, a) {
      inner := ContentsPictured(m, m.objects[a].contents, limit - 1);
    }
    items := Opening(m, a) + inner + Closing(m, a);
    WalkPrinted(m, key, a, limit, inner);
    PartsPicture(m, a, limit, inner, WriteMemory(m, key, a, limit).limit);
  }

  lemma WalkPrinted(m: Memory, key: string, a: Address, limit: int, inner: seq<Item>)
    requires Print(inner) == if IsOpen(m, a) then WriteContents(m, m.objects[a].contents, limit - 1).events else []
    ensures WriteMemory(m, key, a, limit).events == PrintItem(Box(key, Opening(m, a) + inner + Closing(m, a)))
  {
    OpeningPrinted(m, key, a);
    ClosingPrinted(m, a);
    PrintConcat(Opening(m, a) + inner, Closing(m, a));
    PrintConcat(Opening(m, a), inner);
    var head := if a !in m.objects then [] else WriteObjectHead(m.objects[a]);
    assert WriteObject(m, a, limit - 1).events == head + Print(inner);
    hide Print, Opening, Closing, WriteObject, WriteObjectHead, WriteContents, Head, Fallback;
    Regroup([Begin(key)], Print(Opening(m, a)), Print(inner), Print(Closing(m, a)), [End], Head(m, key, a), head);
  }

  lemma Regroup<T>(begin: seq<T>, o: seq<T>, i: seq<T>, c: seq<T>, end: seq<T>, head: seq<T>, object': seq<T>)
    requires begin + o == head + object'
    ensures begin + (o + i + c) + end == head + (object' + i) + c + end
  {
    assert begin + (o + i + c) == begin + o + i + c;
    assert head + (object' + i) == head + object' + i;
  }

  /** The types that are read, and everything else of one location but its containers. */
  lemma TypesRead(m: Memory, a: Address, items: seq<Item>)
    requires Texts(items, "type")
          == (if a in m.objects then [TypeOf(m.objects[a])] else [])
             + if IsPlain(m, a) then [if a == 0 then "null_pointer" else if a in m.strings then "string" else "unknown"] else []
    ensures TypesAre(m, a, Texts(items, "type"))
  {
    hide Texts;
    NamesDiffer();
  }

  lemma InsidesRead(m: Memory, a: Address, limit: int, inner: seq<Item>, left: int, items: seq<Item>)
    requires if IsOpen(m, a) then ContentsAre(m, m.objects[a].contents, limit - 1, inner, left) else inner == [] && left == limit - 1
    requires Boxes(items) == if inner != [] && inner[0].Box? then [inner[0].key] else []
    requires forall i | 0 <= i < |items| && items[i].Box? :: inner != [] && items[i] == inner[0]
    ensures InsidesAre(m, a, limit, items, left)
  {
    hide Boxes, Pictures, IvarsPictured;
  }

  lemma ValuesRead(m: Memory, a: Address, limit: int, inner: seq<Item>, left: int)
    requires if IsOpen(m, a) then ContentsAre(m, m.objects[a].contents, limit - 1, inner, left) else inner == [] && left == limit - 1
    ensures ValuesAre(m, a, Opening(m, a) + inner + Closing(m, a))
  {
    hide Texts, Figures, Boxes, Opening, Closing, ContentsAre;
    NamesDiffer();
    PartSays(m, a, limit, inner, left, "class");
    PartSays(m, a, limit, inner, left, "value");
    PartSays(m, a, limit, inner, left, "last_deallocated_obj");
  }

  lemma PartsPicture(m: Memory, a: Address, limit: int, inner: seq<Item>, left: int)
    requires if IsOpen(m, a) then ContentsAre(m, m.objects[a].contents, limit - 1, inner, left) else inner == [] && left == limit - 1
    ensures Pictures(m, a, limit, Opening(m, a) + inner + Closing(m, a), left)
  {
    var items := Opening(m, a) + inner + Closing(m, a);
    InnerSays(m, a, limit, inner, left, "type");
    hide Texts, Figures, Boxes, Opening, Closing, IvarsPictured, ContentsAre, InsidesAre, TypesAre, ValuesAre;
    NamesDiffer();
    PartSays(m, a, limit, inner, left, "type");
    TypesRead(m, a, items);
    ValuesRead(m, a, limit, inner, left);
    OnlyBox(m, a, inner);
    InsidesRead(m, a, limit, inner, left, items);
  }

  lemma PartSays(m: Memory, a: Address, limit: int, inner: seq<Item>, left: int, key: string)
    requires if IsOpen(m, a) then ContentsAre(m, m.objects[a].contents, limit - 1, inner, left) else inner == [] && left == limit - 1
    ensures var items := Opening(m, a) + inner + Closing(m, a);
      && Texts(items, key)
         == (if key == "last_deallocated_obj" && a in m.zombies then [m.zombies[a]] else [])
            + (if a in m.objects && key == "type" then [TypeOf(m.objects[a])] else [])
            + (if a in m.objects && key == "class" then [m.objects[a].className] else [])
            + (if key == "value" && IsOpen(m, a) && m.objects[a].contents.Text? && m.objects[a].contents.text.Some?
               then [m.objects[a].contents.text.value] else [])
            + (if key == "type" && IsPlain(m, a) then [if a == 0 then "null_pointer" else if a in m.strings then "string" else "unknown"] else [])
            + (if key == "value" && IsPlain(m, a) && a != 0 && a in m.strings then [m.strings[a]] else [])
      && Figures(items) == ["address"] + (if IsOpen(m, a) && m.objects[a].contents.Number? then ["value"] else [])
      && Boxes(items) == (if inner != [] && inner[0].Box? then [inner[0].key] else [])
  {
    hide Texts, Figures, Boxes, Opening, Closing;
    ThreeParts(Opening(m, a), inner, Closing(m, a), key);
    OpeningSays(m, a, key);
    ClosingSays(m, a, key);
    InnerSays(m, a, limit, inner, left, key);
  }

  lemma InnerSays(m: Memory, a: Address, limit: int, inner: seq<Item>, left: int, key: string)
    requires if IsOpen(m, a) then ContentsAre(m, m.objects[a].contents, limit - 1, inner, left) else inner == [] && left == limit - 1
    ensures |inner| <= 1
    ensures Texts(inner, key) == if key == "value" && IsOpen(m, a) && m.objects[a].contents.Text? && m.objects[a].contents.text.Some?
                                 then [m.objects[a].contents.text.value] else []
    ensures Figures(inner) == if IsOpen(m, a) && m.objects[a].contents.Number? then ["value"] else []
    ensures Boxes(inner) == if inner != [] && inner[0].Box? then [inner[0].key] else []
  {
    hide Texts, Figures, Boxes, Pictures, IvarsPictured;
    NoneSays(key);
    if inner != [] {
      OneSays(inner[0], key);
      assert inner == [inner[0]];
    }
  }

  /** The only container is among the contents. */
  lemma OnlyBox(m: Memory, a: Address, inner: seq<Item>)
    requires |inner| <= 1
    ensures var items := Opening(m, a) + inner + Closing(m, a);
      forall i | 0 <= i < |items| && items[i].Box? :: inner != [] && items[i] == inner[0]
  {
    OpeningSays(m, a, "");
    ClosingSays(m, a, "");
    NoBox(Opening(m, a));
    NoBox(Closing(m, a));
    hide Opening, Closing;
  }

  lemma {:induction false} NoBox(s: seq<Item>)
    requires Boxes(s) == []
    ensures forall item | item in s :: !item.Box?
    decreases |s|
  {
    if s != [] {
      NoBox(s[1..]);
      assert s == [s[0]] + s[1..];
    }
  }

  /** From every memory, address and limit, what is read of the walk is one location that pictures what is there. */
  lemma WalkIsRead(m: Memory, key: string, a: Address, limit: int)
    ensures var w := WriteMemory(m, key, a, limit);
      var (read, rest) := Read(w.events);
      && rest == [] && |read| == 1 && read[0].Box? && read[0].key == key
      && Pictures(m, a, limit, read[0].items, w.limit)
  {
    hide Pictures;
    var items := MemoryPictured(m, key, a, limit);
    PrintOne(Box(key, items));
    ReadPrinted([Box(key, items)], []);
    assert WriteMemory(m, key, a, limit).events + [] == WriteMemory(m, key, a, limit).events;
  }
}
