/** What the scanner reads off a JSON document, said on the tree: which object shows the chat shape
    and which value is its content.

    The scanner knows a position only by the numbers of objects and arrays around it, so the reading
    does too: `curly` and `square` count them. */
module DocumentReading {
  import opened Seqs
  import opened ChatDocument

  // How far down the path choices, first choice, message the document has led so far.
  datatype Phase = Start | Choices | Choice | Message

  // What the key before a value makes of it.
  datatype Role = Ordinary | ChoicesValue | MessageValue

  // Hit: the content, printed at `pos`. Rest: no content, and how far the path has led.
  datatype Reading = Hit(pos: nat, value: Value) | Rest(phase: Phase)

  function RoleOf(m: Member, curly: nat, square: nat, phase: Phase): Role {
    if curly == 1 && square == 0 && Named(m, "choices") then ChoicesValue
    else if (phase.Choice? || phase.Message?) && curly == 2 && square == 1 && Named(m, "message") then MessageValue
    else Ordinary
  }

  predicate IsContentKey(m: Member, curly: nat, square: nat, phase: Phase) {
    phase.Message? && curly == 3 && square == 1 && Named(m, "content")
  }

  function InArray(phase: Phase, role: Role): Phase {
    if role.ChoicesValue? && phase.Start? then Choices else phase
  }

  function InObject(curly: nat, square: nat, phase: Phase, role: Role): Phase {
    if role.MessageValue? then Message
    else if phase.Choices? && curly == 1 && square == 1 then Choice
    else phase
  }

  // The reading of a value printed at i, with `curly` objects and `square` arrays around it.
  function Read(v: Value, i: nat, curly: nat, square: nat, phase: Phase, role: Role): Reading
    decreases v, 1
  {
    match v
    case Str(_) => Rest(phase)
    case Atom(_) => Rest(phase)
    case Arr(_, items) => ReadItems(items, i + 1, curly, square + 1, InArray(phase, role))
    case Obj(_, members) => ReadMembers(members, i + 1, curly + 1, square, InObject(curly, square, phase, role))
  }

  function ReadItems(items: seq<Item>, i: nat, curly: nat, square: nat, phase: Phase): Reading
    decreases items, 0
  {
    if items == [] then Rest(phase)
    else
      match Read(items[0].value, i + |items[0].lead|, curly, square, phase, Ordinary)
      case Hit(pos, value) => Hit(pos, value)
      case Rest(p) => ReadItems(items[1..], i + |PrintItem(items[0])| + 1, curly, square, p)
  }

  function ReadMember(m: Member, i: nat, curly: nat, square: nat, phase: Phase): Reading
    decreases m, 0
  {
    if IsContentKey(m, curly, square, phase) then Hit(ValuePos(i, m), m.item.value)
    else Read(m.item.value, ValuePos(i, m), curly, square, phase, RoleOf(m, curly, square, phase))
  }

  function ReadMembers(members: seq<Member>, i: nat, curly: nat, square: nat, phase: Phase): Reading
    decreases members, 0
  {
    if members == [] then Rest(phase)
    else
      match ReadMember(members[0], i, curly, square, phase)
      case Hit(pos, value) => Hit(pos, value)
      case Rest(p) => ReadMembers(members[1..], i + |PrintMember(members[0])| + 1, curly, square, p)
  }

  function ReadDocument(doc: Value, i: nat): Reading {
    Read(doc, i, 0, 0, Start, Ordinary)
  }

  predicate Shown(r: Reading) {
    r.Hit? || r.phase.Message?
  }
  // ----- Values off the path ---------------------------------------------------------------------

  // Nothing inside a value at this place can lead further.
  predicate Quiet(curly: nat, square: nat, phase: Phase) {
    && curly >= 1
    && (phase.Choices? || phase.Choice? ==> curly >= 2 || square >= 2)
    && (phase.Message? ==> curly >= 3 || square >= 2)
  }

  predicate NoKeys(curly: nat, square: nat, phase: Phase) {
    && !(curly == 1 && square == 0)
    && !((phase.Choice? || phase.Message?) && curly == 2 && square == 1)
    && !(phase.Message? && curly == 3 && square == 1)
  }

  lemma {:induction false} QuietValue(v: Value, i: nat, curly: nat, square: nat, phase: Phase)
    requires Quiet(curly, square, phase)
    ensures Read(v, i, curly, square, phase, Ordinary) == Rest(phase)
    decreases v, 1
  {
    match v
    case Str(_) =>
    case Atom(_) =>
    case Arr(_, items) =>
      QuietItems(items, i + 1, curly, square + 1, phase);
    case Obj(_, members) =>
      QuietMembers(members, i + 1, curly + 1, square, phase);
  }

  lemma {:induction false} QuietItems(items: seq<Item>, i: nat, curly: nat, square: nat, phase: Phase)
    requires Quiet(curly, square, phase)
    ensures ReadItems(items, i, curly, square, phase) == Rest(phase)
    decreases items, 0
  {
    if items != [] {
      QuietValue(items[0].value, i + |items[0].lead|, curly, square, phase);
      QuietItems(items[1..], i + |PrintItem(items[0])| + 1, curly, square, phase);
    }
  }

  lemma {:induction false} QuietMembers(members: seq<Member>, i: nat, curly: nat, square: nat, phase: Phase)
    requires Quiet(curly, square, phase) && NoKeys(curly, square, phase)
    ensures ReadMembers(members, i, curly, square, phase) == Rest(phase)
    decreases members, 0
  {
    if members != [] {
      QuietValue(members[0].item.value, ValuePos(i, members[0]), curly, square, phase);
      QuietMembers(members[1..], i + |PrintMember(members[0])| + 1, curly, square, phase);
    }
  }

  // ----- The content of the first choice ------------------------------------------------------------

  // The members before the n-th lead nowhere.
  lemma {:induction false} SkipMembers(members: seq<Member>, n: nat, i: nat, curly: nat, square: nat, phase: Phase)
      returns (at: nat)
    requires n <= |members| && Quiet(curly, square, phase)
    requires forall k :: 0 <= k < n ==> RoleOf(members[k], curly, square, phase).Ordinary?
                                        && !IsContentKey(members[k], curly, square, phase)
    ensures ReadMembers(members, i, curly, square, phase) == ReadMembers(members[n..], at, curly, square, phase)
    decreases n
  {
    at := i;
    if n > 0 {
      QuietValue(members[0].item.value, ValuePos(i, members[0]), curly, square, phase);
      at := SkipMembers(members[1..], n - 1, i + |PrintMember(members[0])| + 1, curly, square, phase);
      DropOfDrop(members, 1, n);
    } else {
      CutAt(members, 0);
    }
  }

  // The content that the n-th member holds is what all of them read as.
  lemma HitAtMember(members: seq<Member>, n: nat, at: nat, curly: nat, square: nat, phase: Phase)
    requires n < |members| && ReadMember(members[n], at, curly, square, phase).Hit?
    ensures ReadMembers(members[n..], at, curly, square, phase) == ReadMember(members[n], at, curly, square, phase)
  {
    hide ReadMember;
    assert members[n..][0] == members[n];
  }

  lemma MessageIsRead(message: Value, i: nat)
    requires Has(message, "content")
    ensures var r := ReadMembers(message.members, i, 3, 1, Message); r.Hit? && r.value == Get(message, "content")
  {
    hide Read, Named;
    var n := Find(message.members, "content");
    var at := SkipMembers(message.members, n, i, 3, 1, Message);
    HitAtMember(message.members, n, at, 3, 1, Message);
  }

  lemma ChoiceIsRead(choice: Value, i: nat)
    requires Has(choice, "message") && Has(Get(choice, "message"), "content")
    ensures var r := ReadMembers(choice.members, i, 2, 1, Choice);
            r.Hit? && r.value == Get(Get(choice, "message"), "content")
  {
    hide Named, Find, ReadMembers;
    var n := Find(choice.members, "message");
    var at := SkipMembers(choice.members, n, i, 2, 1, Choice);
    MessageIsRead(Get(choice, "message"), ValuePos(at, choice.members[n]) + 1);
    HitAtMember(choice.members, n, at, 2, 1, Choice);
  }

  // The reading stops at the content of the first choice's message, and at no other value.
  lemma ContentIsRead(doc: Value, i: nat)
    requires HasContent(doc)
    ensures ReadDocument(doc, i).Hit? && ReadDocument(doc, i).value == ContentOf(doc)
  {
    hide Named, Find, ReadMembers;
    var n := Find(doc.members, "choices");
    var at := SkipMembers(doc.members, n, i + 1, 1, 0, Start);
    var choices := Get(doc, "choices");
    var first := ValuePos(at, doc.members[n]) + 1;
    ChoiceIsRead(choices.items[0].value, first + |choices.items[0].lead| + 1);
    assert ReadItems(choices.items, first, 1, 1, Choices)
        == Read(choices.items[0].value, first + |choices.items[0].lead|, 1, 1, Choices, Ordinary);
    HitAtMember(doc.members, n, at, 1, 0, Start);
  }

  // ----- Documents without a content -----------------------------------------------------------------

  predicate Mentions(v: Value, name: string) {
    match v
    case Str(_) => false
    case Atom(_) => false
    case Arr(_, items) => exists k :: 0 <= k < |items| && Mentions(items[k].value, name)
    case Obj(_, members) =>
      exists k :: 0 <= k < |members| && (Named(members[k], name) || Mentions(members[k].item.value, name))
  }

  lemma {:induction false} NoContentNoHit(v: Value, i: nat, curly: nat, square: nat, phase: Phase, role: Role)
    requires !Mentions(v, "content")
    ensures Read(v, i, curly, square, phase, role).Rest?
    decreases v, 1
  {
    match v
    case Str(_) =>
    case Atom(_) =>
    case Arr(_, items) =>
      NoContentInItems(items, i + 1, curly, square + 1, InArray(phase, role));
    case Obj(_, members) =>
      NoContentInMembers(members, i + 1, curly + 1, square, InObject(curly, square, phase, role));
  }

  lemma {:induction false} NoContentInItems(items: seq<Item>, i: nat, curly: nat, square: nat, phase: Phase)
    requires forall k :: 0 <= k < |items| ==> !Mentions(items[k].value, "content")
    ensures ReadItems(items, i, curly, square, phase).Rest?
    decreases items, 0
  {
    if items != [] {
      var r := Read(items[0].value, i + |items[0].lead|, curly, square, phase, Ordinary);
      NoContentNoHit(items[0].value, i + |items[0].lead|, curly, square, phase, Ordinary);
      NoContentInItems(items[1..], i + |PrintItem(items[0])| + 1, curly, square, r.phase);
    }
  }

  lemma {:induction false} NoContentInMembers(members: seq<Member>, i: nat, curly: nat, square: nat, phase: Phase)
    requires forall k :: 0 <= k < |members| ==>
               !Named(members[k], "content") && !Mentions(members[k].item.value, "content")
    ensures ReadMembers(members, i, curly, square, phase).Rest?
    decreases members, 0
  {
    if members != [] {
      var m := members[0];
      NoContentNoHit(m.item.value, ValuePos(i, m), curly, square, phase, RoleOf(m, curly, square, phase));
      var r := ReadMember(m, i, curly, square, phase);
      NoContentInMembers(members[1..], i + |PrintMember(m)| + 1, curly, square, r.phase);
    }
  }

  // ----- The chat shape --------------------------------------------------------------------------------

  predicate OpensChoices(m: Member) {
    Named(m, "choices") && m.item.value.Arr?
  }

  predicate IsMessage(m: Member) {
    Named(m, "message") && m.item.value.Obj?
  }

  predicate AnyMessage(members: seq<Member>) {
    exists n :: 0 <= n < |members| && IsMessage(members[n])
  }

  predicate HoldsMessage(v: Value) {
    v.Obj? && AnyMessage(v.members)
  }

  predicate AnyChoice(items: seq<Item>) {
    exists n :: 0 <= n < |items| && HoldsMessage(items[n].value)
  }

  // A member whose value is an array with an object that has a message.
  predicate HoldsChoice(m: Member) {
    m.item.value.Arr? && AnyChoice(m.item.value.items)
  }

  // A member `choices` that is an array, and in it or in an array behind it an object with a member
  // `message` that is an object.
  predicate ShowsShape(doc: Value) {
    doc.Obj? && exists j, k :: 0 <= j <= k < |doc.members|
                               && OpensChoices(doc.members[j]) && HoldsChoice(doc.members[k])
  }

  // Once the message has been entered the shape stays shown.
  lemma {:induction false} StaysShown(v: Value, i: nat, curly: nat, square: nat, role: Role)
    ensures Shown(Read(v, i, curly, square, Message, role))
    decreases v, 1
  {
    match v
    case Str(_) =>
    case Atom(_) =>
    case Arr(_, items) =>
      ItemsStayShown(items, i + 1, curly, square + 1);
    case Obj(_, members) =>
      MembersStayShown(members, i + 1, curly + 1, square);
  }

  lemma {:induction false} ItemsStayShown(items: seq<Item>, i: nat, curly: nat, square: nat)
    ensures Shown(ReadItems(items, i, curly, square, Message))
    decreases items, 0
  {
    if items != [] {
      StaysShown(items[0].value, i + |items[0].lead|, curly, square, Ordinary);
      ItemsStayShown(items[1..], i + |PrintItem(items[0])| + 1, curly, square);
    }
  }

  lemma {:induction false} MembersStayShown(members: seq<Member>, i: nat, curly: nat, square: nat)
    ensures Shown(ReadMembers(members, i, curly, square, Message))
    decreases members, 0
  {
    if members != [] {
      StaysShown(members[0].item.value, ValuePos(i, members[0]), curly, square,
                 RoleOf(members[0], curly, square, Message));
      MembersStayShown(members[1..], i + |PrintMember(members[0])| + 1, curly, square);
    }
  }

  // A member of a choice.
  lemma ChoiceMember(m: Member, i: nat)
    ensures var r := ReadMember(m, i, 2, 1, Choice);
            if IsMessage(m) then Shown(r) else r == Rest(Choice)
  {
    var v, at := m.item.value, ValuePos(i, m);
    if Named(m, "message") {
      if v.Obj? {
        MembersStayShown(v.members, at + 1, 3, 1);
      } else if v.Arr? {
        QuietItems(v.items, at + 1, 2, 2, Choice);
      }
    } else {
      QuietValue(v, at, 2, 1, Choice);
    }
  }

  lemma {:induction false} ChoiceMembers(members: seq<Member>, i: nat)
    ensures var r := ReadMembers(members, i, 2, 1, Choice);
            if AnyMessage(members) then Shown(r) else r == Rest(Choice)
    decreases members
  {
    if members != [] {
      hide ReadMember, IsMessage;
      var next := i + |PrintMember(members[0])| + 1;
      ChoiceMember(members[0], i);
      ChoiceMembers(members[1..], next);
      MembersStayShown(members[1..], next, 2, 1);
      AnyMessageSplits(members);
    }
  }

  lemma AnyMessageSplits(members: seq<Member>)
    requires members != []
    ensures AnyMessage(members) <==> IsMessage(members[0]) || AnyMessage(members[1..])
  {
    hide IsMessage;
    forall n | 0 <= n < |members| ensures n > 0 ==> members[n] == members[1..][n - 1] {
    }
    if AnyMessage(members[1..]) {
      var n :| 0 <= n < |members[1..]| && IsMessage(members[1..][n]);
      assert IsMessage(members[n + 1]);
    }
  }

  // Inside an array of choices, where the first object has been seen or not.
  predicate AmongChoices(phase: Phase) {
    phase.Choices? || phase.Choice?
  }

  lemma ChoiceItem(v: Value, i: nat, phase: Phase)
    requires AmongChoices(phase)
    ensures var r := Read(v, i, 1, 1, phase, Ordinary);
            if HoldsMessage(v) then Shown(r) else r.Rest? && AmongChoices(r.phase)
  {
    if v.Obj? {
      ChoiceMembers(v.members, i + 1);
    } else if v.Arr? {
      QuietItems(v.items, i + 1, 1, 2, phase);
    }
  }

  lemma {:induction false} ChoiceItems(items: seq<Item>, i: nat, phase: Phase)
    requires AmongChoices(phase)
    ensures var r := ReadItems(items, i, 1, 1, phase);
            if AnyChoice(items) then Shown(r) else r.Rest? && AmongChoices(r.phase)
    decreases items
  {
    if items != [] {
      hide Read, HoldsMessage, AmongChoices;
      var next := i + |PrintItem(items[0])| + 1;
      var r := Read(items[0].value, i + |items[0].lead|, 1, 1, phase, Ordinary);
      ChoiceItem(items[0].value, i + |items[0].lead|, phase);
      ItemsStayShown(items[1..], next, 1, 1);
      AnyChoiceSplits(items);
      if !HoldsMessage(items[0].value) {
        ChoiceItems(items[1..], next, r.phase);
      }
    }
  }

  lemma AnyChoiceSplits(items: seq<Item>)
    requires items != []
    ensures AnyChoice(items) <==> HoldsMessage(items[0].value) || AnyChoice(items[1..])
  {
    hide HoldsMessage;
    forall n | 0 <= n < |items| ensures n > 0 ==> items[n] == items[1..][n - 1] {
    }
    if AnyChoice(items[1..]) {
      var n :| 0 <= n < |items[1..]| && HoldsMessage(items[1..][n].value);
      assert HoldsMessage(items[n + 1].value);
    }
  }

  // A member of the document itself.
  lemma TopMember(m: Member, i: nat, phase: Phase)
    requires !phase.Message?
    ensures var r := ReadMember(m, i, 1, 0, phase);
            if phase.Start? && !OpensChoices(m) then r == Rest(Start)
            else if HoldsChoice(m) then Shown(r)
            else r.Rest? && AmongChoices(r.phase)
  {
    var v, at := m.item.value, ValuePos(i, m);
    match v
    case Str(_) =>
    case Atom(_) =>
    case Arr(_, items) =>
      if phase.Start? && !Named(m, "choices") {
        QuietItems(items, at + 1, 1, 1, Start);
      } else {
        ChoiceItems(items, at + 1, if phase.Start? then Choices else phase);
      }
    case Obj(_, members) =>
      QuietMembers(members, at + 1, 2, 0, phase);
  }

  // The members of the document from some of them on, before or after the choices have begun.
  predicate Shapes(members: seq<Member>, phase: Phase) {
    if phase.Start?
    then exists j, k :: 0 <= j <= k < |members| && OpensChoices(members[j]) && HoldsChoice(members[k])
    else exists k :: 0 <= k < |members| && HoldsChoice(members[k])
  }

  lemma ShapesSplits(members: seq<Member>, phase: Phase)
    requires members != []
    ensures Shapes(members, phase) <==>
            if phase.Start? && !OpensChoices(members[0]) then Shapes(members[1..], Start)
            else HoldsChoice(members[0]) || Shapes(members[1..], Choices)
  {
    hide OpensChoices, HoldsChoice;
    var rest := members[1..];
    forall n | 0 <= n < |members| ensures n > 0 ==> members[n] == rest[n - 1] {
    }
    if k :| 0 <= k < |rest| && HoldsChoice(rest[k]) {
      assert members[k + 1] == rest[k];
    }
    if phase.Start? && Shapes(rest, Start) {
      var j, k :| 0 <= j <= k < |rest| && OpensChoices(rest[j]) && HoldsChoice(rest[k]);
      assert members[j + 1] == rest[j] && members[k + 1] == rest[k];
    }
  }

  lemma {:induction false} TopMembers(members: seq<Member>, i: nat, phase: Phase)
    requires !phase.Message?
    ensures Shown(ReadMembers(members, i, 1, 0, phase)) <==> Shapes(members, phase)
    decreases members
  {
    if members != [] {
      hide ReadMember, OpensChoices, HoldsChoice;
      var next := i + |PrintMember(members[0])| + 1;
      var r := ReadMember(members[0], i, 1, 0, phase);
      TopMember(members[0], i, phase);
      MembersStayShown(members[1..], next, 1, 0);
      ShapesSplits(members, phase);
      if !Shown(r) {
        TopMembers(members[1..], next, r.phase);
      }
    }
  }

  // Which documents show the chat shape, said on the document.
  lemma ShapeExactly(doc: Value, i: nat)
    requires doc.Obj?
    ensures Shown(ReadDocument(doc, i)) <==> ShowsShape(doc)
  {
    TopMembers(doc.members, i + 1, Start);
  }
}
