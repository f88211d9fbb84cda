/** UTF-8 through the JSON layer: printing well-formed strings gives well-formed
    text, and parsing well-formed text gives well-formed strings. */
module JsonStrings {
  import opened Bytes
  import Utf8
  import opened Json
  import opened JsonText

  /** Every string and key in the value is well-formed UTF-8. */
  predicate Clean(v: Json)
    decreases v
  {
    match v
    case Str(text) => Utf8.Valid(text)
    case Arr(items) => forall i :: 0 <= i < |items| ==> Clean(items[i])
    case Obj(members) => forall i :: 0 <= i < |members| ==> Utf8.Valid(members[i].key) && Clean(members[i].value)
    case _ => true
  }

  // ---------------------------------------------------------------- printed text

  /** Neither a line break nor any other control byte. */
  predicate NoControl(t: bytes) {
    forall i :: 0 <= i < |t| ==> t[i] >= ' '
  }

  /** Escaping one byte leaves a UTF-8 decoder where the byte itself would. */
  lemma EscapedByteText(u: Utf8.State, b: byte)
    ensures NoControl(EscapedByte(b))
    ensures Utf8.Run(u, EscapedByte(b)) == Utf8.Step(u, b)
  {
    var e := EscapedByte(b);
    assert e == [e[0]] + e[1..];
    Utf8.RunCons(u, e[0], e[1..]);
    if |e| > 1 {
      if u.Boundary? {
        Utf8.AsciiValid(e[1..]);
      } else {
        Utf8.BadStays(e[1..]);
      }
    }
  }

  lemma {:induction false} EscapedText(u: Utf8.State, s: bytes)
    ensures NoControl(Escaped(s))
    ensures Utf8.Run(u, Escaped(s)) == Utf8.Run(u, s)
    decreases s
  {
    if s != [] {
      EscapedByteText(u, s[0]);
      Utf8.RunAppend(u, EscapedByte(s[0]), Escaped(s[1..]));
      EscapedText(Utf8.Step(u, s[0]), s[1..]);
    }
  }

  /** Bytes outside ASCII are printed as they are. */
  lemma {:induction false} EscapedKeeps(s: bytes, b: byte)
    requires b in s && b as int >= 0x80
    ensures b in Escaped(s)
  {
    if s[0] == b {
      assert EscapedByte(b) == [b] && b in EscapedByte(s[0]);
    } else {
      EscapedKeeps(s[1..], b);
    }
  }

  lemma {:induction false} PrintMembersKeeps(members: seq<Member>, i: nat, b: byte)
    requires i < |members| && b in Print(members[i].value)
    ensures b in PrintMembers(members)
  {
    if i == 0 {
      assert b in PrintMember(members[0]);
    } else {
      PrintMembersKeeps(members[1..], i - 1, b);
    }
  }

  lemma QuotedText(s: bytes)
    ensures NoControl(Quoted(s))
    ensures Utf8.Valid(s) ==> Utf8.Valid(Quoted(s))
  {
    EscapedText(Utf8.Boundary, s);
    if Utf8.Valid(s) {
      Utf8.AsciiValid(['"']);
      Utf8.ValidAppend(Escaped(s), ['"']);
      Utf8.ValidAppend(['"'], Escaped(s) + ['"']);
    }
  }

  lemma {:induction false} PrintedText(v: Json)
    requires Plainly(v)
    ensures NoControl(Print(v))
    ensures Clean(v) ==> Utf8.Valid(Print(v))
    decreases v, 1
  {
    match v {
      case Null => Utf8.AsciiValid(Print(v));
      case Bool(_) => Utf8.AsciiValid(Print(v));
      case Num(raw) => Utf8.AsciiValid(raw);
      case Str(text) => QuotedText(text);
      case Arr(items) =>
        PrintedItems(items);
        if Clean(v) {
          Wrapped('[', PrintItems(items), ']');
        }
      case Obj(members) =>
        PrintedMembers(members);
        if Clean(v) {
          Wrapped('{', PrintMembers(members), '}');
        }
    }
  }

  lemma Wrapped(a: byte, t: bytes, b: byte)
    requires a as int < 0x80 && b as int < 0x80 && Utf8.Valid(t)
    ensures Utf8.Valid([a] + (t + [b]))
  {
    Utf8.AsciiValid([a]);
    Utf8.AsciiValid([b]);
    Utf8.ValidAppend(t, [b]);
    Utf8.ValidAppend([a], t + [b]);
  }

  lemma Joined(a: bytes, c: byte, b: bytes)
    requires c as int < 0x80 && Utf8.Valid(a) && Utf8.Valid(b)
    ensures Utf8.Valid(a + ([c] + b))
  {
    Utf8.AsciiValid([c]);
    Utf8.ValidAppend([c], b);
    Utf8.ValidAppend(a, [c] + b);
  }

  lemma {:induction false} PrintedItems(items: seq<Json>)
    requires forall i :: 0 <= i < |items| ==> Plainly(items[i])
    ensures NoControl(PrintItems(items))
    ensures (forall i :: 0 <= i < |items| ==> Clean(items[i])) ==> Utf8.Valid(PrintItems(items))
    decreases items, 0
  {
    if items != [] {
      PrintedText(items[0]);
      if |items| > 1 {
        PrintedItems(items[1..]);
        if forall i :: 0 <= i < |items| ==> Clean(items[i]) {
          Joined(Print(items[0]), ',', PrintItems(items[1..]));
        }
      }
    }
  }

  lemma {:induction false} PrintedMember(m: Member)
    requires Plainly(m.value)
    ensures NoControl(PrintMember(m))
    ensures Utf8.Valid(m.key) && Clean(m.value) ==> Utf8.Valid(PrintMember(m))
    decreases m, 2
  {
    QuotedText(m.key);
    PrintedText(m.value);
    if Utf8.Valid(m.key) && Clean(m.value) {
      Joined(Quoted(m.key), ':', Print(m.value));
    }
  }

  lemma {:induction false} PrintedMembers(members: seq<Member>)
    requires forall i :: 0 <= i < |members| ==> Plainly(members[i].value)
    ensures NoControl(PrintMembers(members))
    ensures Clean(Obj(members)) ==> Utf8.Valid(PrintMembers(members))
    decreases members, 3
  {
    if members != [] {
      PrintedMember(members[0]);
      if |members| > 1 {
        PrintedMembers(members[1..]);
        if Clean(Obj(members)) {
          Joined(PrintMember(members[0]), ',', PrintMembers(members[1..]));
        }
      }
    }
  }

  // ---------------------------------------------------------------- parsed strings

  predicate CleanStack(k: Stack) {
    match k
    case Bottom => true
    case ArrFrame(items, below) => Clean(Arr(items)) && CleanStack(below)
    case ObjFrame(members, key, below) => Clean(Obj(members)) && Utf8.Valid(key) && CleanStack(below)
  }

  /** `u` is where a UTF-8 decoder stands after the bytes read so far. */
  predicate CleanMode(m: Mode, u: Utf8.State) {
    match m
    case InStr(_, acc, lex) => if lex.Plain? then Utf8.Run(Utf8.Boundary, acc) == u else u.Boundary? && Utf8.Valid(acc)
    case InLit(_, v) => Clean(v)
    case Done(v) => Clean(v)
    case Colon(key) => Utf8.Valid(key)
    case _ => true
  }

  predicate CleanState(s: State, u: Utf8.State) {
    s.Fail? || u.Bad? || (CleanStack(s.stack) && CleanMode(s.mode, u))
  }

  lemma CleanClose(k: Stack, v: Json, u: Utf8.State)
    requires CleanStack(k) && Clean(v)
    ensures CleanState(Close(k, v), u)
  {
  }

  lemma CleanStringStep(acc: bytes, lex: StrLex, b: byte, u: Utf8.State)
    requires CleanMode(InStr(true, acc, lex), u)
    ensures match StepStr(acc, lex, b)
            case StrBad => true
            case StrEnd => Utf8.Step(u, b).Bad? || Utf8.Valid(acc)
            case StrMore(acc', lex') => Utf8.Step(u, b).Bad? || CleanMode(InStr(true, acc', lex'), Utf8.Step(u, b))
  {
    match lex {
      case Plain =>
        Utf8.RunAppend(Utf8.Boundary, acc, [b]);
        Utf8.RunCons(u, b, []);
        assert [b] == [b] + [];
      case Escape =>
        forall c: byte | c as int < 0x80 ensures Utf8.Valid(acc + [c]) {
          Utf8.AsciiValid([c]);
          Utf8.ValidAppend(acc, [c]);
        }
      case Hex(left, code, high) =>
        forall cp | Utf8.IsScalar(cp) ensures Utf8.Valid(acc + Utf8.Encode(cp)) {
          Utf8.ValidAppend(acc, Utf8.Encode(cp));
        }
      case LowSlash(_) =>
      case LowU(_) =>
    }
  }

  lemma CleanAfter(k: Stack, b: byte, u: Utf8.State)
    requires CleanStack(k)
    ensures CleanState(StepAfter(k, b), u)
  {
    match k {
      case Bottom =>
      case ArrFrame(items, below) => CleanClose(below, Arr(items), u);
      case ObjFrame(members, _, below) => CleanClose(below, Obj(members), u);
    }
  }

  lemma CleanStart(k: Stack, b: byte, u: Utf8.State)
    requires CleanStack(k)
    ensures CleanState(StartValue(k, b), Utf8.Step(u, b))
  {
    assert Utf8.Run(Utf8.Boundary, []) == Utf8.Boundary;
  }

  lemma CleanStep(s: State, u: Utf8.State, b: byte)
    requires CleanState(s, u)
    ensures CleanState(Step(s, b), Utf8.Step(u, b))
  {
    if s.At? && !u.Bad? {
      var k := s.stack;
      match s.mode {
        case InStr(isKey, acc, lex) =>
          CleanStringStep(acc, lex, b, u);
          if StepStr(acc, lex, b).StrEnd? && Utf8.Valid(acc) {
            CleanClose(k, Str(acc), Utf8.Step(u, b));
          }
        case InNum(raw, lex) =>
          CleanClose(k, Num(raw), u);
          CleanAfter(Close(k, Num(raw)).stack, b, Utf8.Step(u, b));
        case InLit(rest, v) => CleanClose(k, v, Utf8.Step(u, b));
        case Value => CleanStart(k, b, u);
        case FirstItem =>
          CleanStart(k, b, u);
          if k.ArrFrame? {
            CleanClose(k.below, Arr(k.items), Utf8.Step(u, b));
          }
        case FirstKey =>
          assert Utf8.Run(Utf8.Boundary, []) == Utf8.Boundary;
          if k.ObjFrame? {
            CleanClose(k.below, Obj(k.members), Utf8.Step(u, b));
          }
        case NextKey => assert Utf8.Run(Utf8.Boundary, []) == Utf8.Boundary;
        case Colon(_) =>
        case After => CleanAfter(k, b, Utf8.Step(u, b));
        case Done(_) =>
      }
    }
  }

  lemma {:induction false} CleanRun(s: State, u: Utf8.State, text: bytes)
    requires CleanState(s, u)
    ensures CleanState(Run(s, text), Utf8.Run(u, text))
    decreases text
  {
    if text != [] {
      CleanStep(s, u, text[0]);
      CleanRun(Step(s, text[0]), Utf8.Step(u, text[0]), text[1..]);
    }
  }

  /** Every string taken from a JSON document is well-formed UTF-8. */
  lemma ParsedStringsClean(text: bytes)
    requires FromSlice(text).Some?
    ensures Clean(FromSlice(text).value)
  {
    CleanRun(Init, Utf8.Boundary, text);
  }
}
