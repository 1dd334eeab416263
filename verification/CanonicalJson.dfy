/**
 * confirmation.ts, canonicalJson: sorted keys at every level and no white space, so that a hash
 * of the text stands for the value. A number is the numeral the runtime writes it with. That no
 * two values share a text is shown by reading a text from the front: its first character tells the
 * kind of value, and every kind of value says where it ends. Only the order of keys is forgotten.
 */
module CanonicalJson {
  import opened Wrappers
  import opened Sorting
  import opened Decimals
  import opened StatementModel

  /** What the runtime writes a finite number as: digits, perhaps a sign, a point, an exponent. Every
      finite number has one numeral, and two numbers share it only if they are equal (ECMA-262,
      section 6.1.6.1.20), so the numeral is the number; zero and minus zero are both "0". */
  type Numeral = s: string | IsNumeral(s) witness "0"

  predicate IsNumeral(s: string) {
    |s| > 0 && (IsDigit(s[0]) || s[0] == '-') && forall i :: 0 <= i < |s| ==> IsDigit(s[i]) || s[i] in "-+.e"
  }

  datatype Json = Null | Bool(b: bool) | Num(n: Numeral) | Str(s: string) | Arr(items: seq<Json>)
                  | Obj(entries: seq<Entry>)
  datatype Entry = Entry(key: string, value: Json)

  // ---------------------------------------------------------------- JSON.stringify

  function HexDigit(d: nat): char
    requires d < 16
  {
    if d < 10 then DigitChar(d) else ['a', 'b', 'c', 'd', 'e', 'f'][d - 10]
  }

  function EscapeChar(c: char): string {
    if c == '\"' then "\\\""
    else if c == '\\' then "\\\\"
    else if c as int == 8 then "\\b"
    else if c as int == 9 then "\\t"
    else if c as int == 10 then "\\n"
    else if c as int == 12 then "\\f"
    else if c as int == 13 then "\\r"
    else if c as int < 32 then "\\u00" + [HexDigit(c as int / 16), HexDigit(c as int % 16)]
    else [c]
  }

  function EscapeAll(s: string): string {
    if |s| == 0 then "" else EscapeChar(s[0]) + EscapeAll(s[1..])
  }

  function Quoted(s: string): string {
    "\"" + EscapeAll(s) + "\""
  }

  /** The numeral of a whole number below the range in which the runtime writes exponents. */
  function Whole(n: int): (s: Numeral)
    ensures n < 0 <==> s[0] == '-'
  {
    assert AllDigits(Decimal(if n < 0 then -n else n));
    if n < 0 then "-" + Decimal(-n) else Decimal(n)
  }

  lemma WholeInjective(m: int, n: int)
    requires Whole(m) == Whole(n)
    ensures m == n
  {
    if m < 0 {
      assert Whole(m)[1..] == Decimal(-m) && Whole(n)[1..] == Decimal(-n);
      DecimalInjective(-m, -n);
    } else {
      DecimalInjective(m, n);
    }
  }

  function Text(v: Json): string
    decreases v
  {
    match v
    case Null => "null"
    case Bool(b) => if b then "true" else "false"
    case Num(n) => n
    case Str(s) => Quoted(s)
    case Arr(items) => "[" + TextItems(items)
    case Obj(entries) => "{" + TextEntries(entries)
  }

  function TextItems(items: seq<Json>): string
    decreases items
  {
    if |items| == 0 then "]" else Text(items[0]) + TextMoreItems(items[1..])
  }

  function TextMoreItems(items: seq<Json>): string
    decreases items
  {
    if |items| == 0 then "]" else "," + Text(items[0]) + TextMoreItems(items[1..])
  }

  function TextEntries(entries: seq<Entry>): string
    decreases entries
  {
    if |entries| == 0 then "}" else TextEntry(entries[0]) + TextMoreEntries(entries[1..])
  }

  function TextMoreEntries(entries: seq<Entry>): string
    decreases entries
  {
    if |entries| == 0 then "}" else "," + TextEntry(entries[0]) + TextMoreEntries(entries[1..])
  }

  function TextEntry(e: Entry): string
    decreases e
  {
    Quoted(e.key) + ":" + Text(e.value)
  }

  // ---------------------------------------------------------------- key order

  predicate KeyLess(a: Entry, b: Entry) {
    TextLess(a.key, b.key)
  }

  /** The value with its keys sorted at every level. */
  function Normal(v: Json): Json
    decreases v
  {
    match v
    case Arr(items) => Arr(NormalItems(items))
    case Obj(entries) => Obj(Sort(NormalEntries(entries), KeyLess))
    case _ => v
  }

  function NormalItems(items: seq<Json>): (r: seq<Json>)
    ensures |r| == |items|
    decreases items
  {
    if |items| == 0 then [] else [Normal(items[0])] + NormalItems(items[1..])
  }

  function NormalEntries(entries: seq<Entry>): (r: seq<Entry>)
    ensures |r| == |entries|
    decreases entries
  {
    if |entries| == 0 then [] else [NormalEntry(entries[0])] + NormalEntries(entries[1..])
  }

  function NormalEntry(e: Entry): Entry
    decreases e
  {
    Entry(e.key, Normal(e.value))
  }

  function CanonicalJson(v: Json): string {
    Text(Normal(v))
  }

  // ---------------------------------------------------------------- the text determines the value

  /** What may follow a value inside a text. */
  predicate Delimits(t: string) {
    |t| == 0 || t[0] == ',' || t[0] == ']' || t[0] == '}'
  }

  lemma DropEqual(a: string, s: string, t: string)
    requires a + s == a + t
    ensures s == t
  {
    assert (a + s)[|a|..] == s && (a + t)[|a|..] == t;
  }

  lemma Assoc(a: string, b: string, c: string)
    ensures (a + b) + c == a + (b + c)
  {}

  lemma HexDigitInjective(a: nat, b: nat)
    requires a < 16 && b < 16 && HexDigit(a) == HexDigit(b)
    ensures a == b
  {}

  lemma ControlEscape(c: char, d: char)
    requires c as int < 32 && d as int < 32
    requires HexDigit(c as int / 16) == HexDigit(d as int / 16) && HexDigit(c as int % 16) == HexDigit(d as int % 16)
    ensures c == d
  {
    HexDigitInjective(c as int / 16, d as int / 16);
    HexDigitInjective(c as int % 16, d as int % 16);
    assert c as int == c as int / 16 * 16 + c as int % 16 && d as int == d as int / 16 * 16 + d as int % 16;
  }

  /** Escapes are a prefix code. */
  lemma EscapePrefix(c: char, d: char, s: string, t: string)
    requires EscapeChar(c) + s == EscapeChar(d) + t
    ensures c == d && s == t
  {
    var x, y := EscapeChar(c) + s, EscapeChar(d) + t;
    assert x[0] == EscapeChar(c)[0] && y[0] == EscapeChar(d)[0];
    if |EscapeChar(c)| > 1 && |EscapeChar(d)| > 1 {
      assert x[1] == EscapeChar(c)[1] && y[1] == EscapeChar(d)[1];
      if |EscapeChar(c)| == 6 && |EscapeChar(d)| == 6 {
        assert x[4] == EscapeChar(c)[4] && y[4] == EscapeChar(d)[4];
        assert x[5] == EscapeChar(c)[5] && y[5] == EscapeChar(d)[5];
        ControlEscape(c, d);
      }
    }
    assert c == d;
    DropEqual(EscapeChar(c), s, t);
  }

  lemma EscapeStart(c: char)
    ensures |EscapeChar(c)| > 0 && EscapeChar(c)[0] != '\"'
  {}

  /** A string's escapes, its closing quote and what follows. */
  function Tail(s: string, t: string): string {
    EscapeAll(s) + ("\"" + t)
  }

  lemma TailStart(s: string, t: string)
    ensures |Tail(s, t)| > 0 && (Tail(s, t)[0] == '\"' <==> |s| == 0)
    ensures |s| > 0 ==> Tail(s, t) == EscapeChar(s[0]) + Tail(s[1..], t)
    ensures |s| == 0 ==> Tail(s, t) == "\"" + t
  {
    if |s| > 0 {
      EscapeStart(s[0]);
      Assoc(EscapeChar(s[0]), EscapeAll(s[1..]), "\"" + t);
    }
  }

  lemma {:induction false} EscapeAllPrefix(s: string, t: string, u: string, v: string)
    requires Tail(s, u) == Tail(t, v)
    ensures s == t && u == v
  {
    TailStart(s, u);
    TailStart(t, v);
    if |s| == 0 {
      DropEqual("\"", u, v);
    } else {
      EscapePrefix(s[0], t[0], Tail(s[1..], u), Tail(t[1..], v));
      EscapeAllPrefix(s[1..], t[1..], u, v);
      assert s == [s[0]] + s[1..] && t == [t[0]] + t[1..];
    }
  }

  lemma QuotedText(s: string, t: string)
    ensures Quoted(s) + t == "\"" + Tail(s, t)
  {
    Assoc("\"" + EscapeAll(s), "\"", t);
    Assoc("\"", EscapeAll(s), "\"" + t);
  }

  lemma QuotedPrefix(s: string, t: string, u: string, v: string)
    requires Quoted(s) + u == Quoted(t) + v
    ensures s == t && u == v
  {
    QuotedText(s, u);
    QuotedText(t, v);
    DropEqual("\"", Tail(s, u), Tail(t, v));
    EscapeAllPrefix(s, t, u, v);
  }

  lemma NumeralPrefix(a: Numeral, b: Numeral, t: string, u: string)
    requires Delimits(t) && Delimits(u) && a + t == b + u
    ensures a == b && t == u
  {
    NumeralNotLonger(a, b, t, u);
    NumeralNotLonger(b, a, u, t);
    assert a == (a + t)[..|a|] && b == (b + u)[..|b|];
    DropEqual(a, t, u);
  }

  lemma NumeralNotLonger(a: Numeral, b: Numeral, t: string, u: string)
    requires Delimits(t) && a + t == b + u
    ensures |b| <= |a|
  {
    var x := a + t;
    assert forall k :: 0 <= k < |b| ==> x[k] == b[k];
    assert |t| > 0 ==> x[|a|] == t[0];
    assert |x| == |b| + |u|;
  }

  /** Each kind of value announces itself in its first character. */
  function Mark(v: Json): nat {
    match v
    case Null => 0
    case Bool(b) => (if b then 1 else 2)
    case Num(_) => 3
    case Str(_) => 4
    case Arr(_) => 5
    case Obj(_) => 6
  }

  function MarkOf(c: char): nat {
    if c == 'n' then 0 else if c == 't' then 1 else if c == 'f' then 2 else if c == '\"' then 4
    else if c == '[' then 5 else if c == '{' then 6 else 3
  }

  lemma TextStart(v: Json)
    ensures |Text(v)| > 0 && MarkOf(Text(v)[0]) == Mark(v)
    ensures Text(v)[0] != ']' && Text(v)[0] != '}'
  {}

  lemma TextStartWithTail(v: Json, t: string)
    ensures |Text(v) + t| > 0 && MarkOf((Text(v) + t)[0]) == Mark(v)
    ensures (Text(v) + t)[0] != ']' && (Text(v) + t)[0] != '}'
  {
    TextStart(v);
    assert (Text(v) + t)[0] == Text(v)[0];
  }

  lemma MoreItemsDelimits(items: seq<Json>, t: string)
    ensures Delimits(TextMoreItems(items) + t)
  {}

  lemma MoreEntriesDelimits(entries: seq<Entry>, t: string)
    ensures Delimits(TextMoreEntries(entries) + t)
  {}

  lemma ArrStrip(a: seq<Json>, b: seq<Json>, t: string, u: string)
    requires Text(Arr(a)) + t == Text(Arr(b)) + u
    ensures TextItems(a) + t == TextItems(b) + u
  {
    Assoc("[", TextItems(a), t);
    Assoc("[", TextItems(b), u);
    DropEqual("[", TextItems(a) + t, TextItems(b) + u);
  }

  lemma ObjStrip(a: seq<Entry>, b: seq<Entry>, t: string, u: string)
    requires Text(Obj(a)) + t == Text(Obj(b)) + u
    ensures TextEntries(a) + t == TextEntries(b) + u
  {
    Assoc("{", TextEntries(a), t);
    Assoc("{", TextEntries(b), u);
    DropEqual("{", TextEntries(a) + t, TextEntries(b) + u);
  }

  /** Texts that start alike have the same kind, and the same value when the kind has no content. */
  lemma SameKind(v: Json, w: Json, t: string, u: string)
    requires Text(v) + t == Text(w) + u
    ensures Mark(v) == Mark(w)
    ensures v.Null? || v.Bool? ==> v == w && t == u
  {
    TextStartWithTail(v, t);
    TextStartWithTail(w, u);
    if v.Null? || v.Bool? {
      DropEqual(Text(v), t, u);
    }
  }

  /** A value's text followed by a delimiter determines the value and the rest. */
  lemma {:induction false} TextPrefix(v: Json, w: Json, t: string, u: string)
    requires Delimits(t) && Delimits(u) && Text(v) + t == Text(w) + u
    ensures v == w && t == u
    decreases v
  {
    SameKind(v, w, t, u);
    match v
    case Null =>
    case Bool(_) =>
    case Num(n) => NumeralPrefix(n, w.n, t, u);
    case Str(s) => QuotedPrefix(s, w.s, t, u);
    case Arr(items) =>
      ArrStrip(items, w.items, t, u);
      ItemsPrefix(items, w.items, t, u);
    case Obj(entries) =>
      ObjStrip(entries, w.entries, t, u);
      EntriesPrefix(entries, w.entries, t, u);
  }

  lemma {:induction false} ItemsText(a: seq<Json>, t: string)
    requires |a| > 0
    ensures TextItems(a) + t == Text(a[0]) + (TextMoreItems(a[1..]) + t)
    ensures TextMoreItems(a) + t == "," + (Text(a[0]) + (TextMoreItems(a[1..]) + t))
  {
    Assoc(Text(a[0]), TextMoreItems(a[1..]), t);
    Assoc("," + Text(a[0]), TextMoreItems(a[1..]), t);
    Assoc(",", Text(a[0]), TextMoreItems(a[1..]) + t);
  }

  lemma ItemsStart(a: seq<Json>, t: string)
    ensures |TextItems(a) + t| > 0 && ((TextItems(a) + t)[0] == ']' <==> |a| == 0)
  {
    if |a| > 0 {
      TextStart(a[0]);
    }
  }

  lemma {:induction false} ItemsPrefix(a: seq<Json>, b: seq<Json>, t: string, u: string)
    requires TextItems(a) + t == TextItems(b) + u
    ensures a == b && t == u
    decreases a
  {
    ItemsStart(a, t);
    ItemsStart(b, u);
    if |a| == 0 {
      DropEqual("]", t, u);
    } else {
      var x, y := TextMoreItems(a[1..]) + t, TextMoreItems(b[1..]) + u;
      ItemsText(a, t);
      ItemsText(b, u);
      MoreItemsDelimits(a[1..], t);
      MoreItemsDelimits(b[1..], u);
      TextPrefix(a[0], b[0], x, y);
      MoreItemsPrefix(a[1..], b[1..], t, u);
      assert a == [a[0]] + a[1..] && b == [b[0]] + b[1..];
    }
  }

  lemma {:induction false} MoreItemsPrefix(a: seq<Json>, b: seq<Json>, t: string, u: string)
    requires TextMoreItems(a) + t == TextMoreItems(b) + u
    ensures a == b && t == u
    decreases a
  {
    assert (TextMoreItems(a) + t)[0] == if |a| == 0 then ']' else ',';
    assert (TextMoreItems(b) + u)[0] == if |b| == 0 then ']' else ',';
    if |a| == 0 {
      DropEqual("]", t, u);
    } else {
      var x, y := TextMoreItems(a[1..]) + t, TextMoreItems(b[1..]) + u;
      ItemsText(a, t);
      ItemsText(b, u);
      DropEqual(",", Text(a[0]) + x, Text(b[0]) + y);
      MoreItemsDelimits(a[1..], t);
      MoreItemsDelimits(b[1..], u);
      TextPrefix(a[0], b[0], x, y);
      MoreItemsPrefix(a[1..], b[1..], t, u);
      assert a == [a[0]] + a[1..] && b == [b[0]] + b[1..];
    }
  }

  lemma EntryText(e: Entry, t: string)
    ensures TextEntry(e) + t == Quoted(e.key) + (":" + (Text(e.value) + t))
  {
    Assoc(Quoted(e.key) + ":", Text(e.value), t);
    Assoc(Quoted(e.key), ":", Text(e.value) + t);
  }

  lemma {:induction false} EntryPrefix(e: Entry, f: Entry, t: string, u: string)
    requires Delimits(t) && Delimits(u) && TextEntry(e) + t == TextEntry(f) + u
    ensures e == f && t == u
    decreases e
  {
    EntryText(e, t);
    EntryText(f, u);
    QuotedPrefix(e.key, f.key, ":" + (Text(e.value) + t), ":" + (Text(f.value) + u));
    DropEqual(":", Text(e.value) + t, Text(f.value) + u);
    TextPrefix(e.value, f.value, t, u);
  }

  lemma EntriesStart(a: seq<Entry>, t: string)
    ensures |TextEntries(a) + t| > 0 && ((TextEntries(a) + t)[0] == '}' <==> |a| == 0)
  {
    if |a| > 0 {
      EntryText(a[0], "");
      assert TextEntry(a[0]) + "" == TextEntry(a[0]);
      assert Quoted(a[0].key)[0] == '\"';
    }
  }

  lemma {:induction false} EntriesText(a: seq<Entry>, t: string)
    requires |a| > 0
    ensures TextEntries(a) + t == TextEntry(a[0]) + (TextMoreEntries(a[1..]) + t)
    ensures TextMoreEntries(a) + t == "," + (TextEntry(a[0]) + (TextMoreEntries(a[1..]) + t))
  {
    Assoc(TextEntry(a[0]), TextMoreEntries(a[1..]), t);
    Assoc("," + TextEntry(a[0]), TextMoreEntries(a[1..]), t);
    Assoc(",", TextEntry(a[0]), TextMoreEntries(a[1..]) + t);
  }

  lemma {:induction false} EntriesPrefix(a: seq<Entry>, b: seq<Entry>, t: string, u: string)
    requires TextEntries(a) + t == TextEntries(b) + u
    ensures a == b && t == u
    decreases a
  {
    EntriesStart(a, t);
    EntriesStart(b, u);
    if |a| == 0 {
      DropEqual("}", t, u);
    } else {
      var x, y := TextMoreEntries(a[1..]) + t, TextMoreEntries(b[1..]) + u;
      EntriesText(a, t);
      EntriesText(b, u);
      MoreEntriesDelimits(a[1..], t);
      MoreEntriesDelimits(b[1..], u);
      EntryPrefix(a[0], b[0], x, y);
      MoreEntriesPrefix(a[1..], b[1..], t, u);
      assert a == [a[0]] + a[1..] && b == [b[0]] + b[1..];
    }
  }

  lemma {:induction false} MoreEntriesPrefix(a: seq<Entry>, b: seq<Entry>, t: string, u: string)
    requires TextMoreEntries(a) + t == TextMoreEntries(b) + u
    ensures a == b && t == u
    decreases a
  {
    assert (TextMoreEntries(a) + t)[0] == if |a| == 0 then '}' else ',';
    assert (TextMoreEntries(b) + u)[0] == if |b| == 0 then '}' else ',';
    if |a| == 0 {
      DropEqual("}", t, u);
    } else {
      var x, y := TextMoreEntries(a[1..]) + t, TextMoreEntries(b[1..]) + u;
      EntriesText(a, t);
      EntriesText(b, u);
      DropEqual(",", TextEntry(a[0]) + x, TextEntry(b[0]) + y);
      MoreEntriesDelimits(a[1..], t);
      MoreEntriesDelimits(b[1..], u);
      EntryPrefix(a[0], b[0], x, y);
      MoreEntriesPrefix(a[1..], b[1..], t, u);
      assert a == [a[0]] + a[1..] && b == [b[0]] + b[1..];
    }
  }

  /** No two values share a text. */
  lemma TextInjective(v: Json, w: Json)
    ensures Text(v) == Text(w) <==> v == w
  {
    if Text(v) == Text(w) {
      assert Text(v) + "" == Text(w) + "";
      TextPrefix(v, w, "", "");
    }
  }

  // ---------------------------------------------------------------- equality up to key order

  /** No object has the same key twice. */
  ghost predicate Proper(v: Json)
    decreases v
  {
    match v
    case Arr(items) => forall i :: 0 <= i < |items| ==> Proper(items[i])
    case Obj(entries) =>
      && (forall i, j :: 0 <= i < j < |entries| ==> entries[i].key != entries[j].key)
      && (forall i :: 0 <= i < |entries| ==> Proper(entries[i].value))
    case _ => true
  }

  ghost function Keys(entries: seq<Entry>): set<string> {
    set e | e in entries :: e.key
  }

  /** Equal but for the order in which objects list their keys. */
  ghost predicate SameValue(v: Json, w: Json)
    decreases v
  {
    match v
    case Arr(items) =>
      w.Arr? && |items| == |w.items| && forall i :: 0 <= i < |items| ==> SameValue(items[i], w.items[i])
    case Obj(entries) =>
      && w.Obj? && Keys(entries) == Keys(w.entries)
      && forall i, j :: 0 <= i < |entries| && 0 <= j < |w.entries| && entries[i].key == w.entries[j].key
                        ==> SameValue(entries[i].value, w.entries[j].value)
    case _ => v == w
  }

  lemma {:induction false} NormalItemsAt(items: seq<Json>, i: nat)
    requires i < |items|
    ensures NormalItems(items)[i] == Normal(items[i])
  {
    if i > 0 {
      NormalItemsAt(items[1..], i - 1);
    }
  }

  lemma {:induction false} NormalEntriesAt(entries: seq<Entry>, i: nat)
    requires i < |entries|
    ensures NormalEntries(entries)[i] == Entry(entries[i].key, Normal(entries[i].value))
  {
    if i > 0 {
      NormalEntriesAt(entries[1..], i - 1);
    }
  }

  lemma KeyLessFacts(a: string, b: string, c: string)
    ensures !TextLess(a, a) && (a == b || TextLess(a, b) || TextLess(b, a))
    ensures TextLess(a, b) && TextLess(b, c) ==> TextLess(a, c)
  {
    TextLessIrreflexive(a);
    TextLessTotal(a, b);
    if TextLess(a, b) && TextLess(b, c) {
      TextLessTransitive(a, b, c);
    }
  }

  /** Sorting entries with distinct keys forgets their order and nothing else. */
  lemma {:induction false} SortForgetsOrder(a: seq<Entry>, b: seq<Entry>)
    requires forall i, j :: 0 <= i < j < |a| ==> a[i].key != a[j].key
    requires forall i, j :: 0 <= i < j < |b| ==> b[i].key != b[j].key
    ensures Sort(a, KeyLess) == Sort(b, KeyLess) <==> Elements(a) == Elements(b)
  {
    SortElements(a, KeyLess);
    SortElements(b, KeyLess);
    if Elements(a) == Elements(b) {
      KeysOrder(a);
      KeysOrder(b);
      SortSorts(a, KeyLess);
      SortSorts(b, KeyLess);
      SortedUnique(Sort(a, KeyLess), Sort(b, KeyLess), KeyLess);
    }
  }

  lemma KeysOrder(a: seq<Entry>)
    requires forall i, j :: 0 <= i < j < |a| ==> a[i].key != a[j].key
    ensures OrdersStrictly(KeyLess, Elements(a)) && NoRepeats(a)
  {
    forall x, y, z | x in Elements(a) && y in Elements(a) && z in Elements(a)
      ensures !KeyLess(x, x) && (x != y ==> KeyLess(x, y) || KeyLess(y, x))
              && (KeyLess(x, y) && KeyLess(y, z) ==> KeyLess(x, z))
    {
      var i :| 0 <= i < |a| && a[i] == x;
      var j :| 0 <= j < |a| && a[j] == y;
      KeyLessFacts(x.key, y.key, z.key);
      assert x != y ==> x.key != y.key by {
        if x != y { assert i < j || j < i; }
      }
    }
  }

  /** Sorted keys leave two values equal exactly when they were equal up to key order. */
  lemma {:induction false} NormalIff(v: Json, w: Json)
    requires Proper(v) && Proper(w)
    ensures Normal(v) == Normal(w) <==> SameValue(v, w)
    decreases v
  {
    if v.Arr? && w.Arr? && |v.items| == |w.items| {
      forall i: nat | i < |v.items|
        ensures NormalItems(v.items)[i] == NormalItems(w.items)[i] <==> SameValue(v.items[i], w.items[i])
      {
        NormalItemsAt(v.items, i);
        NormalItemsAt(w.items, i);
        NormalIff(v.items[i], w.items[i]);
      }
      assert NormalItems(v.items) == NormalItems(w.items)
             <==> forall i: nat :: i < |v.items| ==> NormalItems(v.items)[i] == NormalItems(w.items)[i];
    } else if v.Obj? && w.Obj? {
      forall i: nat, j: nat | i < |v.entries| && j < |w.entries|
        ensures Normal(v.entries[i].value) == Normal(w.entries[j].value)
                <==> SameValue(v.entries[i].value, w.entries[j].value)
      {
        NormalIff(v.entries[i].value, w.entries[j].value);
      }
      NormalEntriesKeys(v.entries);
      NormalEntriesKeys(w.entries);
      SortForgetsOrder(NormalEntries(v.entries), NormalEntries(w.entries));
      EntriesIff(v, w);
    }
  }

  lemma NormalEntriesKeys(entries: seq<Entry>)
    requires forall i, j :: 0 <= i < j < |entries| ==> entries[i].key != entries[j].key
    ensures forall i, j :: 0 <= i < j < |entries| ==> NormalEntries(entries)[i].key != NormalEntries(entries)[j].key
    ensures forall i ::
              0 <= i < |entries| ==> NormalEntries(entries)[i] == Entry(entries[i].key, Normal(entries[i].value))
  {
    forall i: nat | i < |entries| ensures NormalEntries(entries)[i] == Entry(entries[i].key, Normal(entries[i].value)) {
      NormalEntriesAt(entries, i);
    }
  }

  /** Objects level: the same normal entries, as sets, exactly when the same keys carry equal values. */
  lemma EntriesIff(v: Json, w: Json)
    requires v.Obj? && w.Obj? && Proper(v) && Proper(w)
    requires forall i: nat, j: nat :: i < |v.entries| && j < |w.entries| ==>
               (Normal(v.entries[i].value) == Normal(w.entries[j].value) <==>
                SameValue(v.entries[i].value, w.entries[j].value))
    ensures Elements(NormalEntries(v.entries)) == Elements(NormalEntries(w.entries)) <==> SameValue(v, w)
  {
    NormalEntriesKeys(v.entries);
    NormalEntriesKeys(w.entries);
    if SameValue(v, w) {
      SameKeysSameElements(v.entries, w.entries);
    } else if Elements(NormalEntries(v.entries)) == Elements(NormalEntries(w.entries)) {
      KeysWithin(v.entries, w.entries);
      KeysWithin(w.entries, v.entries);
      forall i: nat, j: nat | i < |v.entries| && j < |w.entries| && v.entries[i].key == w.entries[j].key
        ensures Normal(v.entries[i].value) == Normal(w.entries[j].value)
      {
        SameKeySameNormal(v.entries, w.entries, i, j);
      }
    }
  }

  lemma {:induction false} SameKeysSameElements(a: seq<Entry>, b: seq<Entry>)
    requires Keys(a) == Keys(b)
    requires forall i, j ::
               0 <= i < |a| && 0 <= j < |b| && a[i].key == b[j].key ==> Normal(a[i].value) == Normal(b[j].value)
    ensures Elements(NormalEntries(a)) == Elements(NormalEntries(b))
  {
    SubsetOfElements(a, b);
    SubsetOfElements(b, a);
  }

  lemma {:induction false} SubsetOfElements(a: seq<Entry>, b: seq<Entry>)
    requires Keys(a) <= Keys(b)
    requires forall i, j ::
               0 <= i < |a| && 0 <= j < |b| && a[i].key == b[j].key ==> Normal(a[i].value) == Normal(b[j].value)
    ensures Elements(NormalEntries(a)) <= Elements(NormalEntries(b))
  {
    forall x | x in Elements(NormalEntries(a)) ensures x in Elements(NormalEntries(b)) {
      var i :| 0 <= i < |a| && NormalEntries(a)[i] == x;
      NormalEntriesAt(a, i);
      assert a[i] in a && a[i].key in Keys(b);
      var f :| f in b && f.key == a[i].key;
      var j :| 0 <= j < |b| && b[j] == f;
      NormalEntriesAt(b, j);
      assert NormalEntries(b)[j] == x;
    }
  }

  lemma MatchingEntry(a: seq<Entry>, b: seq<Entry>, i: nat) returns (k: nat)
    requires Elements(NormalEntries(a)) <= Elements(NormalEntries(b)) && i < |a|
    ensures k < |b| && b[k].key == a[i].key && Normal(b[k].value) == Normal(a[i].value)
  {
    NormalEntriesAt(a, i);
    assert NormalEntries(a)[i] in Elements(NormalEntries(b));
    k :| 0 <= k < |b| && NormalEntries(b)[k] == NormalEntries(a)[i];
    NormalEntriesAt(b, k);
  }

  lemma {:induction false} KeysWithin(a: seq<Entry>, b: seq<Entry>)
    requires Elements(NormalEntries(a)) <= Elements(NormalEntries(b))
    ensures Keys(a) <= Keys(b)
  {
    forall key | key in Keys(a) ensures key in Keys(b) {
      var e :| e in a && e.key == key;
      var i :| 0 <= i < |a| && a[i] == e;
      var k := MatchingEntry(a, b, i);
      assert b[k] in b;
    }
  }

  lemma {:induction false} SameKeySameNormal(a: seq<Entry>, b: seq<Entry>, i: nat, j: nat)
    requires Elements(NormalEntries(a)) <= Elements(NormalEntries(b)) && i < |a| && j < |b| && a[i].key == b[j].key
    requires forall k, l :: 0 <= k < l < |b| ==> b[k].key != b[l].key
    ensures Normal(a[i].value) == Normal(b[j].value)
  {
    var k := MatchingEntry(a, b, i);
    assert !(k < j) && !(j < k);
  }

  /** Two canonical texts are equal exactly when the values are equal up to key order. */
  lemma CanonicalIff(v: Json, w: Json)
    requires Proper(v) && Proper(w)
    ensures CanonicalJson(v) == CanonicalJson(w) <==> SameValue(v, w)
  {
    TextInjective(Normal(v), Normal(w));
    NormalIff(v, w);
  }
}
