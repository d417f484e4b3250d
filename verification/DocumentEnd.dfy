/** The bracket scanners agree with the grammar: a printed object or array ends where its text ends. */
module DocumentEnd {
  import opened Seqs
  import opened JsonString
  import opened StreamScan
  import opened StreamPrefix
  import opened ChatDocument
  import opened DocumentScan

  // The pair of brackets a scanner counts.
  datatype Pair = Braces | Squares
  {
    function Opening(): char {
      if Braces? then '{' else '['
    }

    function Closing(): char {
      if Braces? then '}' else ']'
    }
  }

  function EndFrom(raw: string, i: nat, pair: Pair, depth: int): (nat, bool)
    requires i <= |raw|
  {
    BalancedFrom(raw, i, pair.Opening(), pair.Closing(), depth, false, false)
  }

  // ----- What the scanners pass over ---------------------------------------------------------

  lemma {:induction false} PlainPassEnd(raw: string, i: nat, j: nat, pair: Pair, depth: int)
    requires i <= j <= |raw|
    requires forall x :: i <= x < j ==> DocumentScan.Plain(raw[x])
    ensures EndFrom(raw, i, pair, depth) == EndFrom(raw, j, pair, depth)
    decreases j - i
  {
    if i < j {
      PlainPassEnd(raw, i + 1, j, pair, depth);
    }
  }

  lemma SpacesPassEnd(raw: string, i: nat, s: string, pair: Pair, depth: int)
    requires At(raw, i, s) && Spaces(s)
    ensures EndFrom(raw, i, pair, depth) == EndFrom(raw, i + |s|, pair, depth)
  {
    SpacesAreBlank(raw, i, s);
    PlainPassEnd(raw, i, i + |s|, pair, depth);
  }

  lemma {:induction false} EndToCloseQuote(raw: string, i: nat, pair: Pair, depth: int, escaped: bool)
    requires i <= |raw|
    ensures var close := CloseQuote(raw, i, escaped);
            close < |raw| ==> BalancedFrom(raw, i, pair.Opening(), pair.Closing(), depth, true, escaped)
                              == EndFrom(raw, close + 1, pair, depth)
    decreases |raw| - i
  {
    if i < |raw| && (escaped || raw[i] != '"') {
      EndToCloseQuote(raw, i + 1, pair, depth, !escaped && raw[i] == '\\');
    }
  }

  lemma EndQuoted(raw: string, i: nat, units: seq<Unit>, pair: Pair, depth: int)
    requires At(raw, i, Quoted(units)) && AllLegal(units)
    ensures EndFrom(raw, i, pair, depth) == EndFrom(raw, i + |Quoted(units)|, pair, depth)
  {
    hide Unquote, Decoded, CloseQuote;
    QuotedParts(raw, i, units);
    BodyInQuotes(raw, i + 1, units);
    EndToCloseQuote(raw, i + 1, pair, depth, false);
  }

  // ----- The end of a printed value --------------------------------------------------------------

  predicate Opens(v: Value, pair: Pair) {
    if pair.Braces? then v.Obj? else v.Arr?
  }

  lemma {:induction false} EndValue(raw: string, i: nat, v: Value, pair: Pair, depth: int)
    requires Legal(v) && At(raw, i, Print(v)) && depth >= 1
    ensures EndFrom(raw, i, pair, depth) == EndFrom(raw, i + |Print(v)|, pair, depth)
    decreases v, 1
  {
    match v
    case Str(units) =>
      EndQuoted(raw, i, units, pair, depth);
    case Atom(text) =>
      AtomIsPlain(raw, i, text);
      PlainPassEnd(raw, i, i + |text|, pair, depth);
    case _ =>
      EndInner(raw, i, v, pair, depth);
  }

  // An array or object up to its closing bracket.
  lemma {:induction false} EndInner(raw: string, i: nat, v: Value, pair: Pair, depth: int)
    requires v.Arr? || v.Obj?
    requires Legal(v) && At(raw, i, Print(v)) && (depth >= 1 || (depth == 0 && Opens(v, pair)))
    ensures i + |Print(v)| <= |raw| && raw[i] == (if v.Obj? then '{' else '[')
    ensures raw[i + |Print(v)| - 1] == if v.Obj? then '}' else ']'
    ensures EndFrom(raw, i, pair, depth)
         == EndFrom(raw, i + |Print(v)| - 1, pair, if Opens(v, pair) then depth + 1 else depth)
    decreases v, 0
  {
    var inside := if Opens(v, pair) then depth + 1 else depth;
    match v
    case Arr(gap, items) =>
      if items == [] {
        BracketParts(raw, i, "[", gap, "]");
        SpacesPassEnd(raw, i + 1, gap, pair, inside);
      } else {
        BracketParts(raw, i, "[", PrintItems(items), "]");
        EndItems(raw, i + 1, items, pair, inside);
      }
    case Obj(gap, members) =>
      if members == [] {
        BracketParts(raw, i, "{", gap, "}");
        SpacesPassEnd(raw, i + 1, gap, pair, inside);
      } else {
        BracketParts(raw, i, "{", PrintMembers(members), "}");
        EndMembers(raw, i + 1, members, pair, inside);
      }
  }

  lemma {:induction false} EndItems(raw: string, i: nat, items: seq<Item>, pair: Pair, depth: int)
    requires items != [] && (forall k :: 0 <= k < |items| ==> LegalItem(items[k]))
    requires At(raw, i, PrintItems(items)) && depth >= 1
    ensures EndFrom(raw, i, pair, depth) == EndFrom(raw, i + |PrintItems(items)|, pair, depth)
    decreases items, 0
  {
    hide PrintItem, LegalItem, EndFrom;
    var first := PrintItem(items[0]);
    if |items| == 1 {
      ConcatEmpty(first);
      EndItem(raw, i, items[0], pair, depth);
    } else {
      var next := i + |first|;
      ListParts(raw, i, first, PrintItems(items[1..]));
      EndItem(raw, i, items[0], pair, depth);
      PlainPassEnd(raw, next, next + 1, pair, depth);
      EndItems(raw, next + 1, items[1..], pair, depth);
    }
  }

  lemma {:induction false} EndItem(raw: string, i: nat, it: Item, pair: Pair, depth: int)
    requires LegalItem(it) && At(raw, i, PrintItem(it)) && depth >= 1
    ensures EndFrom(raw, i, pair, depth) == EndFrom(raw, i + |PrintItem(it)|, pair, depth)
    decreases it, 0
  {
    hide Print, EndFrom;
    ItemParts(raw, i, it);
    var value := i + |it.lead|;
    SpacesPassEnd(raw, i, it.lead, pair, depth);
    EndValue(raw, value, it.value, pair, depth);
    SpacesPassEnd(raw, value + |Print(it.value)|, it.trail, pair, depth);
  }

  lemma {:induction false} EndMembers(raw: string, p: nat, members: seq<Member>, pair: Pair, depth: int)
    requires members != [] && (forall k :: 0 <= k < |members| ==> LegalMember(members[k]))
    requires At(raw, p, PrintMembers(members)) && depth >= 1
    ensures EndFrom(raw, p, pair, depth) == EndFrom(raw, p + |PrintMembers(members)|, pair, depth)
    decreases members, 0
  {
    hide PrintMember, LegalMember, EndFrom;
    var first := PrintMember(members[0]);
    if |members| == 1 {
      ConcatEmpty(first);
      EndMember(raw, p, members[0], pair, depth);
    } else {
      var next := p + |first|;
      ListParts(raw, p, first, PrintMembers(members[1..]));
      EndMember(raw, p, members[0], pair, depth);
      PlainPassEnd(raw, next, next + 1, pair, depth);
      EndMembers(raw, next + 1, members[1..], pair, depth);
    }
  }

  lemma {:induction false} EndMember(raw: string, p: nat, m: Member, pair: Pair, depth: int)
    requires LegalMember(m) && At(raw, p, PrintMember(m)) && depth >= 1
    ensures EndFrom(raw, p, pair, depth) == EndFrom(raw, p + |PrintMember(m)|, pair, depth)
    decreases m, 0
  {
    hide Quoted, Print, EndFrom;
    MemberParts(raw, p, m);
    var value := ValuePos(p, m);
    EndKey(raw, p, m, value, pair, depth);
    EndValue(raw, value, m.item.value, pair, depth);
    SpacesPassEnd(raw, value + |Print(m.item.value)|, m.item.trail, pair, depth);
  }

  lemma EndKey(raw: string, p: nat, m: Member, value: nat, pair: Pair, depth: int)
    requires LegalMember(m)
    requires At(raw, p, m.lead) && At(raw, p + |m.lead|, Quoted(m.key))
    requires At(raw, p + |m.lead| + |Quoted(m.key)|, m.mid + ":" + m.item.lead)
    requires value == p + |m.lead| + |Quoted(m.key)| + |m.mid| + 1 + |m.item.lead|
    requires At(raw, value, Print(m.item.value))
    ensures EndFrom(raw, p, pair, depth) == EndFrom(raw, value, pair, depth)
  {
    hide Quoted, Print, EndFrom;
    var quote := p + |m.lead|;
    var after := quote + |Quoted(m.key)|;
    SpacesPassEnd(raw, p, m.lead, pair, depth);
    EndQuoted(raw, quote, m.key, pair, depth);
    ColonThenValue(raw, after, m);
    PlainPassEnd(raw, after, value, pair, depth);
  }

  // An object or array printed anywhere in a text is balanced exactly at the end of its own text,
  // whatever brackets its strings hold.
  lemma PrintedValueEnds(raw: string, i: nat, v: Value)
    requires (v.Obj? || v.Arr?) && Legal(v) && At(raw, i, Print(v))
    ensures i < |raw| && raw[i] == (if v.Obj? then '{' else '[')
    ensures BalancedFrom(raw, i, raw[i], if raw[i] == '{' then '}' else ']', 0, false, false) == (i + |Print(v)|, true)
  {
    EndInner(raw, i, v, if v.Obj? then Braces else Squares, 0);
  }
}
