/** What the header of a replayed frame says, field by field. */
module ReplayTexts {
  import opened Bytes
  import opened FixTags
  import opened TokenStream
  import opened EncoderSplit
  import opened Framing
  import opened RawPassThrough
  import opened Replay
  import opened ReplayRoundTrip

  function Either(option: Text, stored: Text): Text {
    if option != [] then option else stored
  }

  /**
   * Type, sub ids, version and routing come from the stored frame unless the options override them; names, times and
   * the sequence number come from the options; PossDupFlag is always set. An empty text stands for no field.
   */
  function Said(v: RawView, o: ReplayOptions, tag: nat): Text {
    if tag == MSG_TYPE then TextOf(v.texts, MSG_TYPE)
    else if tag == MSG_SEQ_NUM then Digits(o.msgSeqNum)
    else if tag == SENDER_COMP_ID then o.senderCompId
    else if tag == SENDER_SUB_ID then Either(o.senderSubId, TextOf(v.texts, SENDER_SUB_ID))
    else if tag == TARGET_COMP_ID then o.targetCompId
    else if tag == TARGET_SUB_ID then Either(o.targetSubId, TextOf(v.texts, TARGET_SUB_ID))
    else if tag == SENDING_TIME then o.sendingTime
    else if tag == DEFAULT_APPL_VER_ID then
      Either(o.defaultApplVerId, if TextOf(v.texts, MSG_TYPE) == [65] then TextOf(v.texts, DEFAULT_APPL_VER_ID) else [])
    else if tag == APPL_VER_ID then Either(o.applVerId, TextOf(v.texts, APPL_VER_ID))
    else if tag == POSS_DUP_FLAG then [YES]
    else if tag == POSS_RESEND then if o.possResend then [YES] else []
    else if tag == ORIG_SENDING_TIME then o.origSendingTime
    else if tag == ON_BEHALF_OF_COMP_ID then Either(o.onBehalfOf, TextOf(v.texts, ON_BEHALF_OF_COMP_ID))
    else if tag == DELIVER_TO_COMP_ID then Either(o.deliverTo, TextOf(v.texts, DELIVER_TO_COMP_ID))
    else []
  }

  /** Texts with one more field, unless it is empty. */
  function Added(texts: map<nat, Text>, tag: nat, text: Text): map<nat, Text> {
    if text == [] then texts else texts[tag := text]
  }

  lemma GatherText(tag: nat, text: Text, k: Stream, texts: map<nat, Text>)
    ensures Gathered(EmitText(tag, text, k), texts) == Gathered(k, Added(texts, tag, text))
  {
  }

  lemma GatherFlag(tag: nat, on: bool, k: Stream, texts: map<nat, Text>)
    ensures Gathered(EmitFlag(tag, on, k), texts) == Gathered(k, Added(texts, tag, if on then [YES] else []))
  {
  }

  lemma GatherField(tag: nat, text: Text, k: Stream, texts: map<nat, Text>)
    ensures Gathered(Next(MakeTok(tag, text), k), texts) == Gathered(k, texts[tag := text])
  {
  }

  lemma AddedText(texts: map<nat, Text>, t: nat, text: Text, tag: nat)
    ensures TextOf(Added(texts, t, text), tag) == if tag == t && text != [] then text else TextOf(texts, tag)
    ensures TextOf(texts[t := text], tag) == if tag == t then text else TextOf(texts, tag)
  {
  }

  /** Routing fields last. */
  lemma RoutingSaid(v: RawView, o: ReplayOptions, m: map<nat, Text>, tag: nat)
    ensures
      var r := Gathered(ReplayRouting(v, o, E), m);
      TextOf(r, tag)
        == if tag in {POSS_DUP_FLAG, POSS_RESEND, ORIG_SENDING_TIME, ON_BEHALF_OF_COMP_ID, DELIVER_TO_COMP_ID}
              && Said(v, o, tag) != []
           then Said(v, o, tag) else TextOf(m, tag)
  {
    hide Gathered, EmitText, EmitFlag, Added, TextOf;
    var behalf := Prefer(o.onBehalfOf, TextOf(v.texts, ON_BEHALF_OF_COMP_ID));
    var deliver := Prefer(o.deliverTo, TextOf(v.texts, DELIVER_TO_COMP_ID));
    var k1 := EmitText(DELIVER_TO_COMP_ID, deliver, E);
    var k2 := EmitText(ON_BEHALF_OF_COMP_ID, behalf, k1);
    var k3 := EmitText(ORIG_SENDING_TIME, o.origSendingTime, k2);
    var m1 := m[POSS_DUP_FLAG := [YES]];
    var m2 := Added(m1, POSS_RESEND, if o.possResend then [YES] else []);
    var m3 := Added(m2, ORIG_SENDING_TIME, o.origSendingTime);
    var m4 := Added(m3, ON_BEHALF_OF_COMP_ID, behalf);
    GatherField(POSS_DUP_FLAG, [YES], EmitFlag(POSS_RESEND, o.possResend, k3), m);
    GatherFlag(POSS_RESEND, o.possResend, k3, m1);
    GatherText(ORIG_SENDING_TIME, o.origSendingTime, k2, m2);
    GatherText(ON_BEHALF_OF_COMP_ID, behalf, k1, m3);
    GatherText(DELIVER_TO_COMP_ID, deliver, E, m4);
    GatherNothing(Added(m4, DELIVER_TO_COMP_ID, deliver));
    AddedText(m, POSS_DUP_FLAG, [YES], tag);
    AddedText(m1, POSS_RESEND, if o.possResend then [YES] else [], tag);
    AddedText(m2, ORIG_SENDING_TIME, o.origSendingTime, tag);
    AddedText(m3, ON_BEHALF_OF_COMP_ID, behalf, tag);
    AddedText(m4, DELIVER_TO_COMP_ID, deliver, tag);
  }

  lemma GatherNothing(texts: map<nat, Text>)
    ensures Gathered(E, texts) == texts
  {
  }

  /** The header up to the versions. */
  function Opening(v: RawView, o: ReplayOptions): map<nat, Text> {
    var m1 := map[MSG_TYPE := TextOf(v.texts, MSG_TYPE)];
    var m2 := m1[MSG_SEQ_NUM := Digits(o.msgSeqNum)][SENDER_COMP_ID := o.senderCompId];
    var m3 := Added(m2, SENDER_SUB_ID, Prefer(o.senderSubId, TextOf(v.texts, SENDER_SUB_ID)));
    var m4 := m3[TARGET_COMP_ID := o.targetCompId];
    var m5 := Added(m4, TARGET_SUB_ID, Prefer(o.targetSubId, TextOf(v.texts, TARGET_SUB_ID)));
    var m6 := m5[SENDING_TIME := o.sendingTime];
    Added(Added(m6, DEFAULT_APPL_VER_ID, DefaultVersion(v, o)), APPL_VER_ID,
          Prefer(o.applVerId, TextOf(v.texts, APPL_VER_ID)))
  }

  lemma OpeningGathers(v: RawView, o: ReplayOptions)
    ensures Gathered(ReplayHeader(v, o, E), map[]) == Gathered(ReplayRouting(v, o, E), Opening(v, o))
  {
    hide Gathered, EmitText, ReplayRouting, Digits;
    var r := ReplayRouting(v, o, E);
    var applVer, version := Prefer(o.applVerId, TextOf(v.texts, APPL_VER_ID)), DefaultVersion(v, o);
    var sub, target := Prefer(o.senderSubId, TextOf(v.texts, SENDER_SUB_ID)),
        Prefer(o.targetSubId, TextOf(v.texts, TARGET_SUB_ID));
    var k7 := EmitText(APPL_VER_ID, applVer, r);
    var k6 := EmitText(DEFAULT_APPL_VER_ID, version, k7);
    var k5 := Next(MakeTok(SENDING_TIME, o.sendingTime), k6);
    var k4 := EmitText(TARGET_SUB_ID, target, k5);
    var k3 := Next(MakeTok(TARGET_COMP_ID, o.targetCompId), k4);
    var k2 := EmitText(SENDER_SUB_ID, sub, k3);
    var k1 := Next(MakeTok(SENDER_COMP_ID, o.senderCompId), k2);
    var k0 := Next(MakeTok(MSG_SEQ_NUM, Digits(o.msgSeqNum)), k1);
    var m1 := map[MSG_TYPE := TextOf(v.texts, MSG_TYPE)];
    var m2 := m1[MSG_SEQ_NUM := Digits(o.msgSeqNum)];
    var m3 := m2[SENDER_COMP_ID := o.senderCompId];
    var m4 := Added(m3, SENDER_SUB_ID, sub);
    var m5 := m4[TARGET_COMP_ID := o.targetCompId];
    var m6 := Added(m5, TARGET_SUB_ID, target);
    var m7 := m6[SENDING_TIME := o.sendingTime];
    GatherField(MSG_TYPE, TextOf(v.texts, MSG_TYPE), k0, map[]);
    assert map[][MSG_TYPE := TextOf(v.texts, MSG_TYPE)] == m1;
    GatherField(MSG_SEQ_NUM, Digits(o.msgSeqNum), k1, m1);
    GatherField(SENDER_COMP_ID, o.senderCompId, k2, m2);
    GatherText(SENDER_SUB_ID, sub, k3, m3);
    GatherField(TARGET_COMP_ID, o.targetCompId, k4, m4);
    GatherText(TARGET_SUB_ID, target, k5, m5);
    GatherField(SENDING_TIME, o.sendingTime, k6, m6);
    GatherText(DEFAULT_APPL_VER_ID, version, k7, m7);
    GatherText(APPL_VER_ID, applVer, r, Added(m7, DEFAULT_APPL_VER_ID, version));
  }

  lemma OpeningSaid(v: RawView, o: ReplayOptions, tag: nat)
    ensures TextOf(Opening(v, o), tag)
         == if tag in {POSS_DUP_FLAG, POSS_RESEND, ORIG_SENDING_TIME, ON_BEHALF_OF_COMP_ID, DELIVER_TO_COMP_ID} then []
            else Said(v, o, tag)
  {
    hide Added, Digits, TextOf;
    var sub, target := Prefer(o.senderSubId, TextOf(v.texts, SENDER_SUB_ID)),
        Prefer(o.targetSubId, TextOf(v.texts, TARGET_SUB_ID));
    var m0: map<nat, Text> := map[];
    var m1 := map[MSG_TYPE := TextOf(v.texts, MSG_TYPE)];
    var m2 := m1[MSG_SEQ_NUM := Digits(o.msgSeqNum)];
    var m3 := m2[SENDER_COMP_ID := o.senderCompId];
    var m4 := Added(m3, SENDER_SUB_ID, sub);
    var m5 := m4[TARGET_COMP_ID := o.targetCompId];
    var m6 := Added(m5, TARGET_SUB_ID, target);
    var m7 := m6[SENDING_TIME := o.sendingTime];
    var m8 := Added(m7, DEFAULT_APPL_VER_ID, DefaultVersion(v, o));
    NothingSaid(tag);
    AddedText(m0, MSG_TYPE, TextOf(v.texts, MSG_TYPE), tag);
    assert m0[MSG_TYPE := TextOf(v.texts, MSG_TYPE)] == m1;
    AddedText(m1, MSG_SEQ_NUM, Digits(o.msgSeqNum), tag);
    AddedText(m2, SENDER_COMP_ID, o.senderCompId, tag);
    AddedText(m3, SENDER_SUB_ID, sub, tag);
    AddedText(m4, TARGET_COMP_ID, o.targetCompId, tag);
    AddedText(m5, TARGET_SUB_ID, target, tag);
    AddedText(m6, SENDING_TIME, o.sendingTime, tag);
    AddedText(m7, DEFAULT_APPL_VER_ID, DefaultVersion(v, o), tag);
    AddedText(m8, APPL_VER_ID, Prefer(o.applVerId, TextOf(v.texts, APPL_VER_ID)), tag);
  }

  lemma NothingSaid(tag: nat)
    ensures TextOf(map[], tag) == []
  {
  }

  /** Every header text of a replayed frame is the one that the options and the stored frame call for. */
  lemma ReplayedHeaderSays(v: RawView, o: ReplayOptions, tag: nat)
    ensures TextOf(ReplayedView(v, o).texts, tag) == Said(v, o, tag)
  {
    hide Gathered, ReplayHeader, ReplayRouting, Opening, TextOf, Said;
    OpeningGathers(v, o);
    OpeningSaid(v, o, tag);
    RoutingSaid(v, o, Opening(v, o), tag);
  }
}
