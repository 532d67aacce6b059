/** The output string of the encoders with its running checksum, and the encoders as they append to it. */
module EncodeBuffer {
  import opened Bytes
  import opened FixTags
  import opened Dictionary
  import opened Scanner
  import opened TokenStream
  import opened OwnedMessage
  import opened Encoder
  import opened TemplateEncoder
  import opened EncoderSplit

  class Buffer {
    var out: Text
    var checksum: nat

    /** The running checksum is the byte sum of the output, in 32-bit arithmetic. */
    ghost predicate Tracks()
      reads this
    {
      checksum == Sum(out) % 0x1_0000_0000
    }

    constructor ()
      ensures out == [] && Tracks()
    {
      out, checksum := [], 0;
    }

    method Append(t: Text)
      modifies this`out
      ensures out == old(out) + t
    {
      out := out + t;
    }

    method AppendTracked(t: Text)
      requires Tracks()
      modifies this
      ensures out == old(out) + t && Tracks()
    {
      SumConcat(out, t);
      out := out + t;
      checksum := (checksum + Sum(t)) % 0x1_0000_0000;
    }

    /** Brings the checksum up to date with an untracked tail. */
    method AccumulateAppendedRange(start: nat)
      requires start <= |out| && checksum == Sum(out[..start]) % 0x1_0000_0000
      modifies this`checksum
      ensures Tracks()
    {
      SumConcat(out[..start], out[start..]);
      assert out[..start] + out[start..] == out;
      checksum := (checksum + Sum(out[start..])) % 0x1_0000_0000;
    }

    method AppendField(tag: nat, value: Text, delim: Byte)
      modifies this`out
      ensures out == old(out) + FieldText(tag, value, delim)
    {
      out := out + Digits(tag);
      out := out + [EQUALS];
      out := out + value;
      out := out + [delim];
      assert out == old(out) + FieldText(tag, value, delim);
    }

    method AppendPrefixedField(prefix: Text, value: Text, delim: Byte, ghost tag: nat)
      requires Tracks() && prefix == Digits(tag) + [EQUALS]
      modifies this
      ensures out == old(out) + FieldText(tag, value, delim) && Tracks()
    {
      AppendTracked(prefix);
      AppendTracked(value);
      AppendTracked([delim]);
      assert out == old(out) + FieldText(tag, value, delim);
    }

    /**
     * Overwrites a fixed-width placeholder by a number that may be shorter. The checksum drops the
     * placeholder's bytes and takes in the digits, so it stays the byte sum of the output.
     */
    method ReplacePlaceholder(offset: nat, width: nat, value: nat)
      requires Tracks() && offset + width <= |out| && value < 0x1_0000_0000
      modifies this
      ensures out == old(out)[..offset] + Digits(value) + old(out)[offset + width..] && Tracks()
    {
      hide Sum, Digits;
      var digits := FormatUint32(value);
      var original := out[offset..offset + width];
      ghost var a, b := out[..offset], out[offset + width..];
      assert out == a + original + b;
      SumConcat(a + original, b);
      SumConcat(a, original);
      SumConcat(a + digits, b);
      SumConcat(a, digits);
      checksum := (checksum - Sum(original) + Sum(digits)) % 0x1_0000_0000;
      ReplaceModulo(Sum(out), Sum(original), Sum(digits));
      out := out[..offset] + digits + out[offset + width..];
    }
  }

  lemma ReplaceModulo(total: nat, dropped: nat, added: nat)
    requires dropped <= total
    ensures (total % 0x1_0000_0000 - dropped + added) % 0x1_0000_0000 == (total - dropped + added) % 0x1_0000_0000
  {
    var q := total / 0x1_0000_0000;
    assert total == q * 0x1_0000_0000 + total % 0x1_0000_0000;
    var x := total % 0x1_0000_0000 - dropped + added;
    ModuloShift(x, q);
  }

  lemma {:induction false} ModuloShift(x: int, q: nat)
    ensures (x + q * 0x1_0000_0000) % 0x1_0000_0000 == x % 0x1_0000_0000
  {
    if q > 0 {
      ModuloShift(x, q - 1);
      var y := x + (q - 1) * 0x1_0000_0000;
      assert x + q * 0x1_0000_0000 == y + 0x1_0000_0000;
    }
  }

  // ---------------------------------------------------------------- generic encoder

  /** Appending an emission that is independent of what follows leaves the rest to be appended. */
  lemma Appended(before: Text, st: Stream, onto: Stream, k: Stream, full: Text, delim: Byte)
    requires onto == Append(st, k) && before + Wire(onto, delim) == full
    ensures (before + Wire(st, delim)) + Wire(k, delim) == full
  {
    WireAppend(st, k, delim);
    Assoc(before, Wire(st, delim), Wire(k, delim));
  }

  lemma AppendedField(before: Text, tag: nat, text: Text, k: Stream, full: Text, delim: Byte)
    requires before + Wire(Next(MakeTok(tag, text), k), delim) == full
    ensures (before + FieldText(tag, text, delim)) + Wire(k, delim) == full
  {
  }

  method EncodePlainBody(b: Buffer, m: Message, delim: Byte, skip: bool)
    modifies b`out
    ensures b.out == old(b.out) + Wire(PlainBody(m, skip, E), delim)
    decreases m, 0
  {
    ghost var full := old(b.out) + Wire(PlainBody(m, skip, E), delim);
    ghost var gs := PlainGroups(m.groups, 0, E);
    for i := 0 to |m.fields|
      invariant b.out + Wire(PlainFields(m, i, skip, gs), delim) == full
    {
      var f := m.fields[i];
      if !(Skipped(f.tag, skip) || HasGroup(m, f.tag)) {
        AppendedField(b.out, f.tag, ValueText(f.value), PlainFields(m, i + 1, skip, gs), full, delim);
        b.AppendField(f.tag, ValueText(f.value), delim);
      }
    }
    for i := 0 to |m.groups|
      invariant b.out + Wire(PlainGroups(m.groups, i, E), delim) == full
    {
      ghost var k := PlainGroups(m.groups, i + 1, E);
      SplitPlainGroup(m.groups[i], k);
      Appended(b.out, PlainGroup(m.groups[i], E), PlainGroup(m.groups[i], k), k, full, delim);
      EncodePlainGroup(b, m.groups[i], delim);
    }
  }

  method EncodePlainGroup(b: Buffer, g: GroupData, delim: Byte)
    modifies b`out
    ensures b.out == old(b.out) + Wire(PlainGroup(g, E), delim)
    decreases g, 1
  {
    b.AppendField(g.countTag, Digits(|g.entries|), delim);
    EncodePlainEntries(b, g.entries, delim);
  }

  method EncodePlainEntries(b: Buffer, entries: seq<Message>, delim: Byte)
    modifies b`out
    ensures b.out == old(b.out) + Wire(PlainEntries(entries, 0, E), delim)
    decreases entries, 0
  {
    ghost var full := old(b.out) + Wire(PlainEntries(entries, 0, E), delim);
    for i := 0 to |entries|
      invariant b.out + Wire(PlainEntries(entries, i, E), delim) == full
    {
      ghost var k := PlainEntries(entries, i + 1, E);
      SplitPlainBody(entries[i], false, k);
      Appended(b.out, PlainBody(entries[i], false, E), PlainBody(entries[i], false, k), k, full, delim);
      EncodePlainBody(b, entries[i], delim, false);
    }
  }

  /** Fields and groups in rule order, then the fields and groups that no rule covers. */
  method EncodeMessageBody(b: Buffer, d: Dict, rules: seq<nat>, m: Message, delim: Byte, skip: bool)
    modifies b`out
    ensures b.out == old(b.out) + Wire(EmitBody(d, rules, m, skip, E), delim)
    decreases m, 3
  {
    ghost var full := old(b.out) + Wire(EmitBody(d, rules, m, skip, E), delim);
    ghost var gs := ExtraGroups(d, rules, m.groups, 0, E);
    ghost var fs := ExtraFields(rules, m, 0, skip, gs);
    for i := 0 to |rules|
      invariant b.out + Wire(RulePass(d, rules, i, m, skip, fs), delim) == full
    {
      ghost var k := RulePass(d, rules, i + 1, m, skip, fs);
      SplitRule(d, m, rules[i], skip, k);
      Appended(b.out, EmitRule(d, m, rules[i], skip, E), EmitRule(d, m, rules[i], skip, k), k, full, delim);
      EncodeRule(b, d, m, rules[i], delim, skip);
    }
    for i := 0 to |m.fields|
      invariant b.out + Wire(ExtraFields(rules, m, i, skip, gs), delim) == full
    {
      var f := m.fields[i];
      if !(Skipped(f.tag, skip) || HasGroup(m, f.tag) || f.tag in rules) {
        AppendedField(b.out, f.tag, ValueText(f.value), ExtraFields(rules, m, i + 1, skip, gs), full, delim);
        b.AppendField(f.tag, ValueText(f.value), delim);
      }
    }
    for i := 0 to |m.groups|
      invariant b.out + Wire(ExtraGroups(d, rules, m.groups, i, E), delim) == full
    {
      if m.groups[i].countTag !in rules {
        ghost var k := ExtraGroups(d, rules, m.groups, i + 1, E);
        SplitGroup(d, m.groups[i], k);
        Appended(b.out, EmitGroup(d, m.groups[i], E), EmitGroup(d, m.groups[i], k), k, full, delim);
        EncodeGroupData(b, d, m.groups[i], delim);
      }
    }
  }

  method EncodeRule(b: Buffer, d: Dict, m: Message, tag: nat, delim: Byte, skip: bool)
    modifies b`out
    ensures b.out == old(b.out) + Wire(EmitRule(d, m, tag, skip, E), delim)
    decreases m, 1
  {
    if Skipped(tag, skip) {
      return;
    }
    var gi := GroupIndex(m.groups, tag);
    if gi >= 0 {
      EncodeGroupData(b, d, m.groups[gi], delim);
      return;
    }
    var fi := FieldIndex(m.fields, tag);
    if fi >= 0 {
      b.AppendField(tag, ValueText(m.fields[fi].value), delim);
    }
  }

  method EncodeGroupData(b: Buffer, d: Dict, g: GroupData, delim: Byte)
    modifies b`out
    ensures b.out == old(b.out) + Wire(EmitGroup(d, g, E), delim)
    decreases g, 2
  {
    b.AppendField(g.countTag, Digits(|g.entries|), delim);
    if g.countTag in d.groups {
      EncodeEntries(b, d, d.groups[g.countTag].rules, g.entries, delim);
    } else {
      EncodePlainEntries(b, g.entries, delim);
    }
  }

  method EncodeEntries(b: Buffer, d: Dict, rules: seq<nat>, entries: seq<Message>, delim: Byte)
    modifies b`out
    ensures b.out == old(b.out) + Wire(EmitEntries(d, rules, entries, 0, E), delim)
    decreases entries, 1
  {
    ghost var full := old(b.out) + Wire(EmitEntries(d, rules, entries, 0, E), delim);
    for i := 0 to |entries|
      invariant b.out + Wire(EmitEntries(d, rules, entries, i, E), delim) == full
    {
      ghost var k := EmitEntries(d, rules, entries, i + 1, E);
      SplitBody(d, rules, entries[i], false, k);
      Appended(b.out, EmitBody(d, rules, entries[i], false, E), EmitBody(d, rules, entries[i], false, k), k, full,
          delim);
      EncodeMessageBody(b, d, rules, entries[i], delim, false);
    }
  }

  // ---------------------------------------------------------------- template encoder

  /** Compiles the rules of a scope, and recursively those of its groups. */
  method CompileScopeTemplate(d: Dict, ghost rank: map<nat, nat>, ghost bound: nat, rules: seq<nat>, skip: bool)
    returns (t: Template)
    requires Ranked(d, rank) && Below(d, rank, rules, bound)
    ensures t == CompileFrom(d, rank, bound, rules, 0, skip)
    decreases bound
  {
    t := Template([], [], []);
    for i := 0 to |rules|
      invariant
        var u := CompileFrom(d, rank, bound, rules, i, skip);
        Template(t.steps + u.steps, t.scalarTags + u.scalarTags, t.groupTags + u.groupTags)
          == CompileFrom(d, rank, bound, rules, 0, skip)
    {
      var tag := rules[i];
      ghost var v := CompileFrom(d, rank, bound, rules, i + 1, skip);
      if !(skip && IsHeaderTag(tag)) {
        if tag in d.groups {
          var scope := CompileScopeTemplate(d, rank, rank[tag], d.groups[tag].rules, false);
          Assoc(t.steps, [GroupStep(tag, scope)], v.steps);
          Assoc(t.groupTags, [tag], v.groupTags);
          t := Template(t.steps + [GroupStep(tag, scope)], t.scalarTags, t.groupTags + [tag]);
        } else {
          Assoc(t.steps, [ScalarStep(tag)], v.steps);
          Assoc(t.scalarTags, [tag], v.scalarTags);
          t := Template(t.steps + [ScalarStep(tag)], t.scalarTags + [tag], t.groupTags);
        }
      }
    }
  }

  method AppendTrackedGenericGroup(b: Buffer, g: GroupData, delim: Byte)
    requires b.Tracks()
    modifies b
    ensures b.out == old(b.out) + Wire(PlainGroup(g, E), delim) && b.Tracks()
  {
    var start := |b.out|;
    EncodePlainGroup(b, g, delim);
    assert b.out[..start] == old(b.out);
    b.AccumulateAppendedRange(start);
  }

  method AppendTrackedGenericField(b: Buffer, f: OwnedMessage.Field, delim: Byte)
    requires b.Tracks()
    modifies b
    ensures b.out == old(b.out) + FieldText(f.tag, ValueText(f.value), delim) && b.Tracks()
  {
    var start := |b.out|;
    b.AppendField(f.tag, ValueText(f.value), delim);
    assert b.out[..start] == old(b.out);
    b.AccumulateAppendedRange(start);
  }

  method EncodeScopeTemplate(b: Buffer, t: Template, m: Message, delim: Byte, skip: bool)
    requires b.Tracks()
    modifies b
    ensures b.out == old(b.out) + Wire(EmitScope(t, m, skip, E), delim) && b.Tracks()
    decreases m, 3
  {
    ghost var full := old(b.out) + Wire(EmitScope(t, m, skip, E), delim);
    ghost var gs := SweepGroups(t, m.groups, 0, E);
    ghost var fs := SweepFields(t, m, 0, skip, gs);
    for i := 0 to |t.steps|
      invariant b.Tracks()
      invariant b.out + Wire(EmitSteps(t, i, m, fs), delim) == full
    {
      EncodeStep(b, t, i, m, delim, fs);
    }
    EncodeSweep(b, t, m, delim, skip);
  }

  /** Fields and groups that the template does not mention. */
  method EncodeSweep(b: Buffer, t: Template, m: Message, delim: Byte, skip: bool)
    requires b.Tracks()
    modifies b
    ensures b.Tracks()
    ensures b.out == old(b.out) + Wire(SweepFields(t, m, 0, skip, SweepGroups(t, m.groups, 0, E)), delim)
    decreases m, 1
  {
    ghost var gs := SweepGroups(t, m.groups, 0, E);
    ghost var full := old(b.out) + Wire(SweepFields(t, m, 0, skip, gs), delim);
    for i := 0 to |m.fields|
      invariant b.Tracks()
      invariant b.out + Wire(SweepFields(t, m, i, skip, gs), delim) == full
    {
      var tag := m.fields[i].tag;
      if !(IsFrameTag(tag) || HasGroup(m, tag) || tag in t.scalarTags || tag in t.groupTags
           || (skip && IsHeaderTag(tag))) {
        AppendedField(b.out, tag, ValueText(m.fields[i].value), SweepFields(t, m, i + 1, skip, gs), full, delim);
        AppendTrackedGenericField(b, m.fields[i], delim);
      }
    }
    for i := 0 to |m.groups|
      invariant b.Tracks()
      invariant b.out + Wire(SweepGroups(t, m.groups, i, E), delim) == full
    {
      if m.groups[i].countTag !in t.groupTags {
        ghost var k := SweepGroups(t, m.groups, i + 1, E);
        SplitPlainGroup(m.groups[i], k);
        Appended(b.out, PlainGroup(m.groups[i], E), PlainGroup(m.groups[i], k), k, full, delim);
        AppendTrackedGenericGroup(b, m.groups[i], delim);
      }
    }
  }

  method EncodeStep(b: Buffer, t: Template, i: nat, m: Message, delim: Byte, ghost k: Stream)
    requires b.Tracks() && i < |t.steps|
    modifies b
    ensures b.Tracks()
    ensures b.out + Wire(EmitSteps(t, i + 1, m, k), delim) == old(b.out) + Wire(EmitSteps(t, i, m, k), delim)
    decreases m, 2
  {
    ghost var more := EmitSteps(t, i + 1, m, k);
    ghost var full := b.out + Wire(EmitSteps(t, i, m, k), delim);
    match t.steps[i]
    case ScalarStep(tag) =>
      var fi := FieldIndex(m.fields, tag);
      if fi >= 0 && !HasGroup(m, tag) {
        AppendedField(b.out, tag, ValueText(m.fields[fi].value), more, full, delim);
        b.AppendPrefixedField(Digits(tag) + [EQUALS], ValueText(m.fields[fi].value), delim, tag);
      }
    case GroupStep(tag, scope) =>
      var gi := GroupIndex(m.groups, tag);
      if gi >= 0 {
        var es := m.groups[gi].entries;
        AppendedField(b.out, tag, Digits(|es|), EmitScopes(scope, es, 0, more), full, delim);
        b.AppendPrefixedField(Digits(tag) + [EQUALS], Digits(|es|), delim, tag);
        SplitScopes(scope, es, 0, more);
        Appended(b.out, EmitScopes(scope, es, 0, E), EmitScopes(scope, es, 0, more), more, full, delim);
        EncodeScopes(b, scope, es, delim);
      }
  }

  method EncodeScopes(b: Buffer, t: Template, entries: seq<Message>, delim: Byte)
    requires b.Tracks()
    modifies b
    ensures b.out == old(b.out) + Wire(EmitScopes(t, entries, 0, E), delim) && b.Tracks()
    decreases entries, 4
  {
    ghost var full := old(b.out) + Wire(EmitScopes(t, entries, 0, E), delim);
    for i := 0 to |entries|
      invariant b.Tracks()
      invariant b.out + Wire(EmitScopes(t, entries, i, E), delim) == full
    {
      ghost var k := EmitScopes(t, entries, i + 1, E);
      SplitScope(t, entries[i], false, k);
      Appended(b.out, EmitScope(t, entries[i], false, E), EmitScope(t, entries[i], false, k), k, full, delim);
      EncodeScopeTemplate(b, t, entries[i], delim, false);
    }
  }
}
