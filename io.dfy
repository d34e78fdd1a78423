/** The text forms of link types, event types and events written by the
 *  `operator<<` overloads of src/io.cpp, and what can be read back from
 *  them. */
module IO {
  import opened DataModel

  /** `ec2label`. */
  function EcLabel(ec: EventClass): string {
    match ec
    case EC_EST => "establish that"
    case EC_TERM => "terminate that"
    case EC_ACT => "let it occur that"
  }

  /** A label lookup by `operator[]`: a missing key reads as the empty
   *  label. Entity types are looked up by a possibly negative id, which is
   *  never a key. */
  function LabelOf(m: map<int, string>, k: int): string {
    if k in m then m[k] else ""
  }

  function TypeLabelOf(m: map<EntityType, string>, k: int): string {
    if k >= 0 && k in m then m[k] else ""
  }

  /** Three parts joined by single spaces. */
  function Joined(a: string, b: string, c: string): string {
    a + " " + b + " " + c
  }

  /** A class label, then a text in double quotes. */
  function Quoted(cls: string, inner: string): string {
    cls + " \"" + inner + "\""
  }

  /** `os << lt`: `et1 rat13 et3` by labels. */
  function LinkTypeText(et2label: map<EntityType, string>, rat2label: map<Rat, string>, lt: LinkType): string {
    Joined(TypeLabelOf(et2label, lt.et1), LabelOf(rat2label, lt.rat13), TypeLabelOf(et2label, lt.et3))
  }

  /** `os << evt`: the class, then the link type in quotes. */
  function EventTypeText(et2label: map<EntityType, string>, rat2label: map<Rat, string>, evt: EventType): string {
    Quoted(EcLabel(evt.ec), Joined(TypeLabelOf(et2label, evt.et1), LabelOf(rat2label, evt.rat13), TypeLabelOf(et2label, evt.et3)))
  }

  /** `some <type>`, naming an entity of a type. */
  function Summary(t: string): string {
    "some" + " " + t
  }

  /** `os << ev`: a summary event (negative e1) names the entity types
   *  recovered by negation, each after `some `; any other event names its
   *  entities. */
  function EventText(e2label: map<Entity, string>, et2label: map<EntityType, string>, rat2label: map<Rat, string>,
                     ev: Event): string {
    if ev.e1 < 0 then
      Quoted(EcLabel(ev.ec), Joined(Summary(TypeLabelOf(et2label, -ev.e1)), LabelOf(rat2label, ev.rat13),
                                    Summary(TypeLabelOf(et2label, -ev.e3))))
    else
      Quoted(EcLabel(ev.ec), Joined(LabelOf(e2label, ev.e1), LabelOf(rat2label, ev.rat13), LabelOf(e2label, ev.e3)))
  }

  // ---------------------------------------------------------------------
  // Reading the text back

  /** A label without spaces. */
  predicate Word(s: string) {
    ' ' !in s
  }

  /** All labels of a table are words. */
  predicate Words<K>(m: map<K, string>) {
    forall k :: k in m ==> Word(m[k])
  }

  /** The position of the first space, or the length when there is none. */
  function FirstSpace(s: string): (r: nat)
    ensures r <= |s| && ' ' !in s[..r] && (r < |s| ==> s[r] == ' ')
  {
    if s == [] then 0 else if s[0] == ' ' then 0 else 1 + FirstSpace(s[1..])
  }

  /** A word followed by a space: the space is the first one. */
  lemma {:induction false} FirstSpaceAfter(a: string, b: string)
    requires Word(a)
    ensures FirstSpace(a + " " + b) == |a|
    decreases |a|
  {
    if a != [] {
      assert (a + " " + b)[1..] == a[1..] + " " + b;
      FirstSpaceAfter(a[1..], b);
    }
  }

  /** Words joined by a space split back at the first space. */
  lemma SplitAtSpace(a: string, b: string, a': string, b': string)
    requires Word(a) && Word(a') && a + " " + b == a' + " " + b'
    ensures a == a' && b == b'
  {
    var s := a + " " + b;
    FirstSpaceAfter(a, b);
    FirstSpaceAfter(a', b');
    assert a == s[..|a|] == a';
    assert b == s[|a| + 1..] == b';
  }

  /** Three parts, the first two words, determine the parts. */
  lemma JoinedInjective(a: string, b: string, c: string, a': string, b': string, c': string)
    requires Word(a) && Word(b) && Word(a') && Word(b')
    requires Joined(a, b, c) == Joined(a', b', c')
    ensures a == a' && b == b' && c == c'
  {
    assert Joined(a, b, c) == a + " " + (b + " " + c);
    assert Joined(a', b', c') == a' + " " + (b' + " " + c');
    SplitAtSpace(a, b + " " + c, a', b' + " " + c');
    SplitAtSpace(b, c, b', c');
  }

  /** Concatenations with first parts of equal length split back. */
  lemma AppendCancel(x: string, y: string, x': string, y': string)
    requires |x| == |x'| && x + y == x' + y'
    ensures x == x' && y == y'
  {
    assert x == (x + y)[..|x|] && x' == (x' + y')[..|x|];
    assert y == (x + y)[|x|..] && y' == (x' + y')[|x|..];
  }

  /** A quoted text with a class label of known length determines the
   *  label and the text. */
  lemma QuotedInjective(cls: string, m: string, cls': string, m': string)
    requires |cls| == |cls'| && Quoted(cls, m) == Quoted(cls', m')
    ensures cls == cls' && m == m'
  {
    AppendCancel(cls + " \"" + m, "\"", cls' + " \"" + m', "\"");
    AppendCancel(cls + " \"", m, cls' + " \"", m');
    AppendCancel(cls, " \"", cls', " \"");
  }

  /** The first letter of a class label names the class. */
  lemma EcLabelFirst(ec: EventClass, ec': EventClass)
    ensures |EcLabel(ec)| > 0 && (EcLabel(ec)[0] == EcLabel(ec')[0] ==> ec == ec')
  {
  }

  /** A quoted text starts with its class label's first letter, so it
   *  determines the class. */
  lemma QuotedClass(ec: EventClass, m: string, ec': EventClass, m': string)
    requires Quoted(EcLabel(ec), m) == Quoted(EcLabel(ec'), m')
    ensures ec == ec' && m == m'
  {
    EcLabelFirst(ec, ec');
    assert Quoted(EcLabel(ec), m)[0] == EcLabel(ec)[0];
    assert Quoted(EcLabel(ec'), m')[0] == EcLabel(ec')[0];
    QuotedInjective(EcLabel(ec), m, EcLabel(ec'), m');
  }

  /** When all labels are words, a link type's text determines the labels
   *  of its three parts. */
  lemma LinkTypeTextInjective(et2label: map<EntityType, string>, rat2label: map<Rat, string>, lt: LinkType, lt': LinkType)
    requires Words(et2label) && Words(rat2label)
    requires LinkTypeText(et2label, rat2label, lt) == LinkTypeText(et2label, rat2label, lt')
    ensures TypeLabelOf(et2label, lt.et1) == TypeLabelOf(et2label, lt'.et1)
    ensures LabelOf(rat2label, lt.rat13) == LabelOf(rat2label, lt'.rat13)
    ensures TypeLabelOf(et2label, lt.et3) == TypeLabelOf(et2label, lt'.et3)
  {
    JoinedInjective(TypeLabelOf(et2label, lt.et1), LabelOf(rat2label, lt.rat13), TypeLabelOf(et2label, lt.et3),
                    TypeLabelOf(et2label, lt'.et1), LabelOf(rat2label, lt'.rat13), TypeLabelOf(et2label, lt'.et3));
  }

  /** When all labels are words, an event type's text determines its class
   *  and the labels of its three parts. */
  lemma EventTypeTextInjective(et2label: map<EntityType, string>, rat2label: map<Rat, string>,
                               evt: EventType, evt': EventType)
    requires Words(et2label) && Words(rat2label)
    requires EventTypeText(et2label, rat2label, evt) == EventTypeText(et2label, rat2label, evt')
    ensures evt.ec == evt'.ec
    ensures TypeLabelOf(et2label, evt.et1) == TypeLabelOf(et2label, evt'.et1)
    ensures LabelOf(rat2label, evt.rat13) == LabelOf(rat2label, evt'.rat13)
    ensures TypeLabelOf(et2label, evt.et3) == TypeLabelOf(et2label, evt'.et3)
  {
    var a, b, c := TypeLabelOf(et2label, evt.et1), LabelOf(rat2label, evt.rat13), TypeLabelOf(et2label, evt.et3);
    var a', b', c' := TypeLabelOf(et2label, evt'.et1), LabelOf(rat2label, evt'.rat13), TypeLabelOf(et2label, evt'.et3);
    QuotedClass(evt.ec, Joined(a, b, c), evt'.ec, Joined(a', b', c'));
    JoinedInjective(a, b, c, a', b', c');
  }

  /** Words `w t1`, `r`, `w t3` joined never read as three words joined. */
  lemma SummaryShape(w: string, t1: string, r: string, t3: string, a: string, r': string, b: string)
    requires Word(w) && Word(t1) && Word(a) && Word(r') && Word(b)
    ensures Joined(w + " " + t1, r, w + " " + t3) != Joined(a, r', b)
  {
    if Joined(w + " " + t1, r, w + " " + t3) == Joined(a, r', b) {
      assert Joined(w + " " + t1, r, w + " " + t3) == w + " " + (t1 + " " + (r + " " + w + " " + t3));
      assert Joined(a, r', b) == a + " " + (r' + " " + b);
      SplitAtSpace(w, t1 + " " + (r + " " + w + " " + t3), a, r' + " " + b);
      SplitAtSpace(t1, r + " " + w + " " + t3, r', b);
      assert false;
    }
  }

  /** When all labels are words, the text of a summary event is never the
   *  text of an event between actual entities. */
  lemma SummaryTextDistinct(e2label: map<Entity, string>, et2label: map<EntityType, string>, rat2label: map<Rat, string>,
                            ev: Event, ev': Event)
    requires Words(e2label) && Words(et2label) && Words(rat2label)
    requires ev.e1 < 0 && ev'.e1 >= 0
    ensures EventText(e2label, et2label, rat2label, ev) != EventText(e2label, et2label, rat2label, ev')
  {
    var t1, r, t3 := TypeLabelOf(et2label, -ev.e1), LabelOf(rat2label, ev.rat13), TypeLabelOf(et2label, -ev.e3);
    var a, r', b := LabelOf(e2label, ev'.e1), LabelOf(rat2label, ev'.rat13), LabelOf(e2label, ev'.e3);
    var m, m' := Joined(Summary(t1), r, Summary(t3)), Joined(a, r', b);
    SummaryShape("some", t1, r, t3, a, r', b);
    assert EventText(e2label, et2label, rat2label, ev) == Quoted(EcLabel(ev.ec), m);
    assert EventText(e2label, et2label, rat2label, ev') == Quoted(EcLabel(ev'.ec), m');
    if Quoted(EcLabel(ev.ec), m) == Quoted(EcLabel(ev'.ec), m') {
      QuotedClass(ev.ec, m, ev'.ec, m');
    }
  }

  /** When all entity labels are distinct words, the text of an event
   *  between actual entities determines its class and its entities. */
  lemma EventTextInjective(e2label: map<Entity, string>, et2label: map<EntityType, string>, rat2label: map<Rat, string>,
                           ev: Event, ev': Event)
    requires Words(e2label) && Words(rat2label)
    requires forall a, b :: a in e2label && b in e2label && e2label[a] == e2label[b] ==> a == b
    requires ev.e1 >= 0 && ev'.e1 >= 0
    requires ev.e1 in e2label && ev.e3 in e2label && ev'.e1 in e2label && ev'.e3 in e2label
    requires EventText(e2label, et2label, rat2label, ev) == EventText(e2label, et2label, rat2label, ev')
    ensures ev.ec == ev'.ec && ev.e1 == ev'.e1 && ev.e3 == ev'.e3
    ensures LabelOf(rat2label, ev.rat13) == LabelOf(rat2label, ev'.rat13)
  {
    var a, b, c := LabelOf(e2label, ev.e1), LabelOf(rat2label, ev.rat13), LabelOf(e2label, ev.e3);
    var a', b', c' := LabelOf(e2label, ev'.e1), LabelOf(rat2label, ev'.rat13), LabelOf(e2label, ev'.e3);
    QuotedClass(ev.ec, Joined(a, b, c), ev'.ec, Joined(a', b', c'));
    JoinedInjective(a, b, c, a', b', c');
  }

  /** When in addition the relationship labels are distinct, the text of an
   *  event between actual entities determines the event. */
  lemma EventTextDetermines(e2label: map<Entity, string>, et2label: map<EntityType, string>, rat2label: map<Rat, string>,
                            ev: Event, ev': Event)
    requires Words(e2label) && Words(rat2label)
    requires forall a, b :: a in e2label && b in e2label && e2label[a] == e2label[b] ==> a == b
    requires forall a, b :: a in rat2label && b in rat2label && rat2label[a] == rat2label[b] ==> a == b
    requires ev.e1 >= 0 && ev'.e1 >= 0
    requires ev.e1 in e2label && ev.e3 in e2label && ev'.e1 in e2label && ev'.e3 in e2label
    requires ev.rat13 in rat2label && ev'.rat13 in rat2label
    requires EventText(e2label, et2label, rat2label, ev) == EventText(e2label, et2label, rat2label, ev')
    ensures ev == ev'
  {
    EventTextInjective(e2label, et2label, rat2label, ev, ev');
  }

  /** Words `w t1`, `r`, `w t3` joined determine `t1`, `r` and `t3`. */
  lemma SummaryJoinedInjective(w: string, t1: string, r: string, t3: string, t1': string, r': string, t3': string)
    requires Word(w) && Word(t1) && Word(r) && Word(t1') && Word(r')
    requires Joined(w + " " + t1, r, w + " " + t3) == Joined(w + " " + t1', r', w + " " + t3')
    ensures t1 == t1' && r == r' && t3 == t3'
  {
    assert Joined(w + " " + t1, r, w + " " + t3) == w + " " + (t1 + " " + (r + " " + (w + " " + t3)));
    assert Joined(w + " " + t1', r', w + " " + t3') == w + " " + (t1' + " " + (r' + " " + (w + " " + t3')));
    SplitAtSpace(w, t1 + " " + (r + " " + (w + " " + t3)), w, t1' + " " + (r' + " " + (w + " " + t3')));
    SplitAtSpace(t1, r + " " + (w + " " + t3), t1', r' + " " + (w + " " + t3'));
    SplitAtSpace(r, w + " " + t3, r', w + " " + t3');
    SplitAtSpace(w, t3, w, t3');
  }

  /** When the entity type and relationship labels are distinct words, the
   *  text of a summary event determines the event. */
  lemma SummaryTextDetermines(e2label: map<Entity, string>, et2label: map<EntityType, string>, rat2label: map<Rat, string>,
                              ev: Event, ev': Event)
    requires Words(et2label) && Words(rat2label)
    requires forall a, b :: a in et2label && b in et2label && et2label[a] == et2label[b] ==> a == b
    requires forall a, b :: a in rat2label && b in rat2label && rat2label[a] == rat2label[b] ==> a == b
    requires ev.e1 < 0 && ev.e3 < 0 && ev'.e1 < 0 && ev'.e3 < 0
    requires -ev.e1 in et2label && -ev.e3 in et2label && -ev'.e1 in et2label && -ev'.e3 in et2label
    requires ev.rat13 in rat2label && ev'.rat13 in rat2label
    requires EventText(e2label, et2label, rat2label, ev) == EventText(e2label, et2label, rat2label, ev')
    ensures ev == ev'
  {
    var t1, r, t3 := TypeLabelOf(et2label, -ev.e1), LabelOf(rat2label, ev.rat13), TypeLabelOf(et2label, -ev.e3);
    var t1', r', t3' := TypeLabelOf(et2label, -ev'.e1), LabelOf(rat2label, ev'.rat13), TypeLabelOf(et2label, -ev'.e3);
    var m, m' := Joined(Summary(t1), r, Summary(t3)), Joined(Summary(t1'), r', Summary(t3'));
    assert EventText(e2label, et2label, rat2label, ev) == Quoted(EcLabel(ev.ec), m);
    assert EventText(e2label, et2label, rat2label, ev') == Quoted(EcLabel(ev'.ec), m');
    QuotedClass(ev.ec, m, ev'.ec, m');
    SummaryJoinedInjective("some", t1, r, t3, t1', r', t3');
    assert et2label[-ev.e1] == et2label[-ev'.e1] && et2label[-ev.e3] == et2label[-ev'.e3];
    assert rat2label[ev.rat13] == rat2label[ev'.rat13];
  }
}
