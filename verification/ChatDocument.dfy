/** JSON documents with their white space, and the chat-completion shape read off them. */
module ChatDocument {
  import opened JsonString
  import opened StreamScan

  // A string or key is kept as the units of its body; `gap` is the white space of an empty
  // container.
  datatype Value =
    | Str(units: seq<Unit>)
    | Atom(text: string)
    | Arr(gap: string, items: seq<Item>)
    | Obj(gap: string, members: seq<Member>)
  datatype Item = Item(lead: string, value: Value, trail: string)
  datatype Member = Member(lead: string, key: seq<Unit>, mid: string, item: Item)

  function Quoted(units: seq<Unit>): string {
    ['"'] + Body(units) + ['"']
  }

  function Print(v: Value): string {
    match v
    case Str(units) => Quoted(units)
    case Atom(text) => text
    case Arr(gap, items) => "[" + (if items == [] then gap else PrintItems(items)) + "]"
    case Obj(gap, members) => "{" + (if members == [] then gap else PrintMembers(members)) + "}"
  }

  function PrintItem(it: Item): string {
    it.lead + Print(it.value) + it.trail
  }

  function PrintItems(items: seq<Item>): string
    requires items != []
  {
    PrintItem(items[0]) + (if |items| == 1 then "" else "," + PrintItems(items[1..]))
  }

  function PrintKey(m: Member): string {
    m.lead + Quoted(m.key) + (m.mid + ":" + m.item.lead)
  }

  // Where the value of a member printed at p stands.
  function ValuePos(p: nat, m: Member): nat {
    p + |PrintKey(m)|
  }

  function PrintMember(m: Member): string {
    PrintKey(m) + (Print(m.item.value) + m.item.trail)
  }

  function PrintMembers(members: seq<Member>): string
    requires members != []
  {
    PrintMember(members[0]) + (if |members| == 1 then "" else "," + PrintMembers(members[1..]))
  }

  // ----- Well-formed documents -------------------------------------------------------

  // White space of JSON (RFC 8259, section 2).
  predicate Spaces(s: string) {
    forall i :: 0 <= i < |s| ==> s[i] in {' ', '\t', '\n', '\r'}
  }

  // The characters of numbers and of true, false and null.
  predicate AtomChar(c: char) {
    'a' <= c <= 'z' || 'A' <= c <= 'Z' || '0' <= c <= '9' || c == '+' || c == '-' || c == '.'
  }

  predicate Legal(v: Value) {
    match v
    case Str(units) => AllLegal(units)
    case Atom(text) => text != "" && (forall i :: 0 <= i < |text| ==> AtomChar(text[i]))
    case Arr(gap, items) => Spaces(gap) && forall i :: 0 <= i < |items| ==> LegalItem(items[i])
    case Obj(gap, members) => Spaces(gap) && forall i :: 0 <= i < |members| ==> LegalMember(members[i])
  }

  predicate LegalItem(it: Item) {
    Spaces(it.lead) && Spaces(it.trail) && Legal(it.value)
  }

  predicate LegalMember(m: Member) {
    Spaces(m.lead) && Spaces(m.mid) && AllLegal(m.key) && LegalItem(m.item)
  }

  // ----- Reading ------------------------------------------------------------------------

  predicate Named(m: Member, name: string) {
    AllLegal(m.key) && Decoded(m.key) == name
  }

  // The position of the first member with this name.
  function Find(members: seq<Member>, name: string): (n: nat)
    ensures n <= |members|
    ensures forall i :: 0 <= i < n ==> !Named(members[i], name)
    ensures n < |members| ==> Named(members[n], name)
  {
    if members == [] || Named(members[0], name) then 0 else 1 + Find(members[1..], name)
  }

  predicate Has(v: Value, name: string) {
    v.Obj? && Find(v.members, name) < |v.members|
  }

  function Get(v: Value, name: string): Value
    requires Has(v, name)
  {
    v.members[Find(v.members, name)].item.value
  }

  // The document is an object whose first choice is an object with a message that has a content.
  predicate HasContent(doc: Value) {
    Has(doc, "choices") &&
    var choices := Get(doc, "choices");
    choices.Arr? && choices.items != [] &&
    var choice := choices.items[0].value;
    Has(choice, "message") && Has(Get(choice, "message"), "content")
  }

  function ContentOf(doc: Value): Value
    requires HasContent(doc)
  {
    Get(Get(Get(doc, "choices").items[0].value, "message"), "content")
  }

  predicate IsAnswer(doc: Value) {
    Legal(doc) && HasContent(doc) && ContentOf(doc).Str? && AllLegal(ContentOf(doc).units)
  }

  // The assistant's words: the decoded content string of the first choice's message.
  function Words(doc: Value): string
    requires IsAnswer(doc)
  {
    Decoded(ContentOf(doc).units)
  }

  lemma PrintOpens(v: Value)
    requires Legal(v)
    ensures Print(v) != "" && !IsWs(Print(v)[0]) && Print(v)[0] != ':'
  {
  }
}
