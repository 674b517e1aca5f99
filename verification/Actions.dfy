/** Proposed actions and the payload hash that binds approvals to them. */
module Actions {
  import opened Wrappers
  import opened JsonText
  import opened CanonicalJson
  import opened JsonRoundTrip

  /** A value JavaScript can hold. */
  type Value = v: Json | WellFormed(v) witness Null

  /** The part of an action that its hash covers. */
  datatype Content = Content(kind: Text, target: Text, payload: Value)

  datatype ProposedAction = ProposedAction(id: string, sessionId: string, content: Content)

  const TYPE_NAME: Text := [0x74, 0x79, 0x70, 0x65]
  const TARGET_NAME: Text := [0x74, 0x61, 0x72, 0x67, 0x65, 0x74]
  const PAYLOAD_NAME: Text := [0x70, 0x61, 0x79, 0x6C, 0x6F, 0x61, 0x64]

  function HashedObject(c: Content): Json {
    Obj([Field(TYPE_NAME, Str(c.kind)), Field(TARGET_NAME, Str(c.target)), Field(PAYLOAD_NAME, c.payload)])
  }

  lemma PropertyNames()
    ensures TYPE_NAME == Ascii("type") && TARGET_NAME == Ascii("target") && PAYLOAD_NAME == Ascii("payload")
  {
  }

  /**
   * `payloadHashFor`. The SHA-256 digest is identified with the canonical text it digests, that is,
   * the digest is taken to be collision-free.
   */
  function PayloadHashFor(c: Content): Result<Text, TypeError> {
    CanonicalText(HashedObject(c))
  }

  /** The same action content, whatever the order of keys in the payload. */
  ghost predicate SameContent(c: Content, d: Content) {
    c.kind == d.kind && c.target == d.target && Same(c.payload, d.payload)
  }

  lemma HashedObjectIsWellFormed(c: Content)
    ensures WellFormed(HashedObject(c))
  {
    NamesDiffer();
  }

  lemma NamesDiffer()
    ensures TYPE_NAME != TARGET_NAME && TYPE_NAME != PAYLOAD_NAME && TARGET_NAME != PAYLOAD_NAME
  {
    assert TYPE_NAME[1] != TARGET_NAME[1];
    assert TYPE_NAME[0] != PAYLOAD_NAME[0] && TARGET_NAME[0] != PAYLOAD_NAME[0];
  }

  lemma SameObjectByFields(fs: seq<Field>, gs: seq<Field>)
    ensures Same(Obj(fs), Obj(gs)) <==> SameFields(fs, gs)
  {
  }

  /** Three fields under three fixed names agree exactly when they agree one by one. */
  lemma ThreeFields(fs: seq<Field>, gs: seq<Field>)
    requires |fs| == |gs| == 3
    requires fs[0].name == gs[0].name && fs[1].name == gs[1].name && fs[2].name == gs[2].name
    requires fs[0].name != fs[1].name && fs[0].name != fs[2].name && fs[1].name != fs[2].name
    ensures SameFields(fs, gs)
       <==> Same(fs[0].value, gs[0].value) && Same(fs[1].value, gs[1].value) && Same(fs[2].value, gs[2].value)
  {
    hide Same, HasSame, HasName;
    if SameFields(fs, gs) {
      var i := Partner(fs[0], gs);
      var j := Partner(fs[1], gs);
      var k := Partner(fs[2], gs);
    }
    if Same(fs[0].value, gs[0].value) && Same(fs[1].value, gs[1].value) && Same(fs[2].value, gs[2].value) {
      forall i | 0 <= i < 3
        ensures HasSame(fs[i], gs) && HasName(gs[i].name, fs)
      {
        IsPartner(fs[i], gs, i);
        IsNamesake(gs[i].name, fs, i);
      }
    }
  }

  lemma SameContentSameObject(c: Content, d: Content)
    ensures Same(HashedObject(c), HashedObject(d)) <==> SameContent(c, d)
  {
    var fs, gs := HashedObject(c).fields, HashedObject(d).fields;
    NamesDiffer();
    SameObjectByFields(fs, gs);
    ThreeFields(fs, gs);
    assert Same(fs[0].value, gs[0].value) <==> c.kind == d.kind;
    assert Same(fs[1].value, gs[1].value) <==> c.target == d.target;
  }

  /** Two hashes agree exactly when the contents are the same up to key order. */
  lemma HashBindsContent(c: Content, d: Content)
    requires PayloadHashFor(c).Success?
    ensures PayloadHashFor(c) == PayloadHashFor(d) <==> SameContent(c, d)
  {
    HashedObjectIsWellFormed(c);
    HashedObjectIsWellFormed(d);
    WrittenExactlyWhenSerializable(HashedObject(c));
    CanonicalTextInjective(HashedObject(c), HashedObject(d));
    SameContentSameObject(c, d);
  }
}
