/** What a log stream's buffer holds after any sequence of `<<` operators. */
module LogModel {
  import opened Bytes
  import opened Numerals

  /** The operands of the supported operators; NullString is a null const char*. */
  datatype Item =
    | BoolItem(flag: bool)
    | CharItem(c: char)
    | StringItem(s: string)
    | NullString
    | IntItem(v: int)
    | PointerItem(address: nat)
  {
    /** Integers and addresses have at most 64 bits. */
    predicate Valid() {
      (IntItem? ==> INT64_MIN <= v <= UINT64_MAX) && (PointerItem? ==> address <= UINT64_MAX)
    }
  }

  const MAX_NUMERIC: nat := 32

  function Render(item: Item): string {
    match item
    case BoolItem(flag) => if flag then "1" else "0"
    case CharItem(c) => [c]
    case StringItem(s) => s
    case NullString => "(null)"
    case IntItem(v) => DecimalText(v)
    case PointerItem(address) => "0x" + Digits(address, 16)
  }

  /** FixedBuffer::append: whole or not at all, and one byte always stays free. */
  function AppendText(text: string, more: string, size: nat): string {
    if size - |text| > |more| then text + more else text
  }

  /** The test in front of each operator: numbers ask for 32 free bytes whatever their length. */
  predicate Fits(item: Item, text: string, size: nat) {
    if item.IntItem? || item.PointerItem? then size - |text| >= MAX_NUMERIC
    else size - |text| > |Render(item)|
  }

  function Put(text: string, item: Item, size: nat): string {
    if Fits(item, text, size) then text + Render(item) else text
  }

  function PutAll(text: string, items: seq<Item>, size: nat): string
    decreases |items|
  {
    if items == [] then text else PutAll(Put(text, items[0], size), items[1..], size)
  }

  /** The 32-byte guard covers every number together with its terminating NUL. */
  lemma NumberFitsGuard(item: Item)
    requires item.Valid()
    ensures item.IntItem? ==> |Render(item)| + 1 <= 21 <= MAX_NUMERIC
    ensures item.PointerItem? ==> |Render(item)| + 1 <= 19 <= MAX_NUMERIC
  {
    match item
    case IntItem(v) => DecimalLength(v);
    case PointerItem(address) => HexLength(address);
    case _ =>
  }

  /** The text says what the operand is: a numeral that reads its value, in the one canonical
      form, or the characters themselves. */
  ghost predicate SaysItem(item: Item, text: string) {
    match item
    case BoolItem(flag) => text == if flag then "1" else "0"
    case CharItem(c) => text == [c]
    case StringItem(s) => text == s
    case NullString => text == "(null)"
    case IntItem(v) => CanonicalDecimal(text) && ParseDecimal(text) == Some(v)
    case PointerItem(address) =>
      |text| > 2 && text[..2] == "0x" && Canonical(text[2..], 16) && ValueOf(text[2..], 16) == address
  }

  /** Every operand is rendered as a text that says it, and as the only one. */
  lemma RenderSays(item: Item, text: string)
    ensures SaysItem(item, text) <==> text == Render(item)
  {
    match item
    case IntItem(v) =>
      DecimalRoundTrip(v);
      if CanonicalDecimal(text) {
        CanonicalDecimalIsText(text);
      }
    case PointerItem(address) =>
      DigitsParse(address, 16);
      assert Render(item)[2..] == Digits(address, 16);
      if |text| > 2 && Canonical(text[2..], 16) {
        CanonicalIsDigits(text[2..], 16);
        assert text == text[..2] + text[2..];
      }
    case _ =>
  }

  /** What an operator does to the text of a buffer of `size` characters: the operand is appended,
      whole, if there are 32 characters left for a number, or one more than anything else needs;
      otherwise nothing happens. */
  ghost predicate PutsItem(item: Item, before: string, after: string, size: nat) {
    if (if item.IntItem? || item.PointerItem? then size - |before| >= 32
        else forall text :: SaysItem(item, text) ==> size - |before| > |text|)
    then before <= after && SaysItem(item, after[|before|..])
    else after == before
  }

  lemma PutPuts(text: string, item: Item, size: nat)
    ensures PutsItem(item, text, Put(text, item, size), size)
  {
    RenderSays(item, Render(item));
    forall t | SaysItem(item, t) ensures t == Render(item) {
      RenderSays(item, t);
    }
    assert (text + Render(item))[|text|..] == Render(item);
  }

  predicate AllValid(items: seq<Item>) {
    forall i :: 0 <= i < |items| ==> items[i].Valid()
  }

  function Renders(items: seq<Item>): (parts: seq<string>)
    ensures |parts| == |items|
  {
    if items == [] then [] else [Render(items[0])] + Renders(items[1..])
  }

  /** The parts that `kept` selects, in order. */
  function Selected(parts: seq<string>, kept: seq<bool>): seq<string>
    requires |parts| == |kept|
  {
    if parts == [] then []
    else (if kept[0] then [parts[0]] else []) + Selected(parts[1..], kept[1..])
  }

  /** Which operators pass their fit test in a run. */
  function Kept(text: string, items: seq<Item>, size: nat): (kept: seq<bool>)
    ensures |kept| == |items|
    decreases |items|
  {
    if items == [] then []
    else [Fits(items[0], text, size)] + Kept(Put(text, items[0], size), items[1..], size)
  }

  lemma PutKeepsRoom(text: string, item: Item, size: nat)
    requires |text| < size && item.Valid()
    ensures |Put(text, item, size)| < size
  {
    NumberFitsGuard(item);
  }

  lemma SelectedStep(part: string, parts: seq<string>, keep: bool, kept: seq<bool>)
    requires |parts| == |kept|
    ensures Flatten(Selected([part] + parts, [keep] + kept))
         == (if keep then part else "") + Flatten(Selected(parts, kept))
  {
    var rest := Selected(parts, kept);
    assert ([part] + parts)[1..] == parts && ([keep] + kept)[1..] == kept;
    if keep {
      FlattenConcat([part], rest);
      FlattenSingle(part);
    } else {
      assert [] + rest == rest;
    }
  }

  /** Every operator is all-or-nothing: the content is the in-order concatenation of the
      renderings that fitted, none of them cut, and it never fills the buffer. */
  lemma {:induction false} ContentIsWhatFitted(text: string, items: seq<Item>, size: nat)
    requires |text| < size && AllValid(items)
    ensures PutAll(text, items, size) == text + Flatten(Selected(Renders(items), Kept(text, items, size)))
    ensures |PutAll(text, items, size)| < size
    decreases |items|
  {
    if items != [] {
      var item, rest := items[0], items[1..];
      var next := Put(text, item, size);
      PutKeepsRoom(text, item, size);
      ContentIsWhatFitted(next, rest, size);
      SelectedStep(Render(item), Renders(rest), Fits(item, text, size), Kept(next, rest, size));
      var tail := Flatten(Selected(Renders(rest), Kept(next, rest, size)));
      assert next + tail == text + ((if Fits(item, text, size) then Render(item) else "") + tail);
    }
  }

  /** Nothing is dropped from a message that ends at least 32 bytes before the buffer does. */
  lemma {:induction false} ShortMessagesAreWhole(text: string, items: seq<Item>, size: nat)
    requires |text| + |Flatten(Renders(items))| + MAX_NUMERIC <= size
    ensures PutAll(text, items, size) == text + Flatten(Renders(items))
    decreases |items|
  {
    if items != [] {
      RendersCons(items);
      assert Fits(items[0], text, size);
      ShortMessagesAreWhole(text + Render(items[0]), items[1..], size);
      Associate(text, Render(items[0]), Flatten(Renders(items[1..])));
    }
  }

  lemma RendersCons(items: seq<Item>)
    requires items != []
    ensures Flatten(Renders(items)) == Render(items[0]) + Flatten(Renders(items[1..]))
  {
    FlattenConcat([Render(items[0])], Renders(items[1..]));
    FlattenSingle(Render(items[0]));
  }

  lemma Associate(a: string, b: string, c: string)
    ensures a + b + c == a + (b + c)
  {
  }
}
