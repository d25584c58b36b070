/**
 Flat JSON objects, section 4 of RFC 8259, in the form JSON.stringify gives them: string and
 non-negative integer values, no escapes, no white space. Names come from a fixed vocabulary.
 */
module FlatJson {
  import opened Basics
  import opened Encoding

  datatype Json = Text(text: string) | Number(number: nat)

  /** A member as written: its name and value. */
  datatype Member = Member(name: string, value: Json)

  predicate PlainChar(c: char) { c != '"' && c != '\\' && ' ' <= c && c as int < 128 }

  predicate Plain(s: string) { forall i :: 0 <= i < |s| ==> PlainChar(s[i]) }

  predicate PlainMember(m: Member) { Plain(m.name) && (m.value.Text? ==> Plain(m.value.text)) }

  // ----- writing -----

  function RenderValue(v: Json): string {
    match v
    case Text(text) => "\"" + text + "\""
    case Number(number) => Decimal(number)
  }

  function RenderMember(m: Member): string { "\"" + m.name + "\":" + RenderValue(m.value) }

  function RenderMembers(members: seq<Member>): string
    requires members != []
  {
    if |members| == 1 then RenderMember(members[0]) else RenderMember(members[0]) + "," + RenderMembers(members[1..])
  }

  function Render(members: seq<Member>): string
    requires members != []
  {
    "{" + RenderMembers(members) + "}"
  }

  // ----- reading -----

  datatype Taken<T> = Taken(value: T, rest: string) | Stuck

  /** The characters before the closing quote. */
  function TakeText(s: string): (t: Taken<string>)
    ensures t.Taken? ==> |t.rest| < |s|
  {
    if s == "" then Stuck
    else if s[0] == '"' then Taken("", s[1..])
    else if !PlainChar(s[0]) then Stuck
    else
      var tail := TakeText(s[1..]);
      if tail.Stuck? then Stuck else Taken([s[0]] + tail.value, tail.rest)
  }

  function TakeDigits(s: string): (t: (string, string))
    ensures |t.1| <= |s|
    ensures forall i :: 0 <= i < |t.0| ==> IsDigit(t.0[i])
  {
    if s == "" || !IsDigit(s[0]) then ("", s)
    else
      var tail := TakeDigits(s[1..]);
      ([s[0]] + tail.0, tail.1)
  }

  function DigitValue(c: char): nat
    requires IsDigit(c)
  {
    c as int - '0' as int
  }

  function ValueOf(digits: string): nat
    requires forall i :: 0 <= i < |digits| ==> IsDigit(digits[i])
  {
    if digits == "" then 0 else ValueOf(digits[..|digits| - 1]) * 10 + DigitValue(digits[|digits| - 1])
  }

  function TakeValue(s: string): (t: Taken<Json>)
    ensures t.Taken? ==> |t.rest| <= |s|
  {
    if s == "" then Stuck
    else if s[0] == '"' then
      var text := TakeText(s[1..]);
      if text.Stuck? then Stuck else Taken(Text(text.value), text.rest)
    else
      var (digits, rest) := TakeDigits(s);
      if digits == "" || (|digits| > 1 && digits[0] == '0') then Stuck else Taken(Number(ValueOf(digits)), rest)
  }

  function TakeMember(s: string): (t: Taken<Member>)
    ensures t.Taken? ==> |t.rest| < |s|
  {
    if s == "" || s[0] != '"' then Stuck
    else
      var name := TakeText(s[1..]);
      if name.Stuck? || name.rest == "" || name.rest[0] != ':' then Stuck
      else
        var value := TakeValue(name.rest[1..]);
        if value.Stuck? then Stuck else Taken(Member(name.value, value.value), value.rest)
  }

  function ParseMembers(s: string): Option<seq<Member>>
    decreases |s|
  {
    var first := TakeMember(s);
    if first.Stuck? then None
    else if first.rest == "}" then Some([first.value])
    else if first.rest == "" || first.rest[0] != ',' then None
    else
      var more := ParseMembers(first.rest[1..]);
      if more.None? then None else Some([first.value] + more.value)
  }

  function Parse(s: string): Option<seq<Member>> {
    if s == "" || s[0] != '{' then None else ParseMembers(s[1..])
  }

  // ----- reading undoes writing -----

  lemma {:induction false} TakeTextOf(text: string, rest: string)
    requires Plain(text)
    ensures TakeText(text + "\"" + rest) == Taken(text, rest)
  {
    var s := text + "\"" + rest;
    if text == "" {
      assert s[1..] == rest;
    } else {
      TakeTextOf(text[1..], rest);
      assert s[1..] == text[1..] + "\"" + rest;
      assert text == [text[0]] + text[1..];
    }
  }

  lemma {:induction false} TakeDigitsOf(digits: string, rest: string)
    requires forall i :: 0 <= i < |digits| ==> IsDigit(digits[i])
    requires rest == "" || !IsDigit(rest[0])
    ensures TakeDigits(digits + rest) == (digits, rest)
  {
    var s := digits + rest;
    if digits == "" {
      assert s == rest;
    } else {
      TakeDigitsOf(digits[1..], rest);
      assert s[1..] == digits[1..] + rest;
      assert digits == [digits[0]] + digits[1..];
    }
  }

  lemma {:induction false} ValueOfDecimal(n: nat)
    ensures (forall i :: 0 <= i < |Decimal(n)| ==> IsDigit(Decimal(n)[i])) && ValueOf(Decimal(n)) == n
  {
    var s := Decimal(n);
    forall i | 0 <= i < |s| ensures IsDigit(s[i]) { assert s[i] in s; }
    if n >= 10 {
      ValueOfDecimal(n / 10);
      assert s[..|s| - 1] == Decimal(n / 10);
    } else {
      assert s[..|s| - 1] == "";
    }
  }

  lemma {:induction false} NoLeadingZero(n: nat)
    ensures |Decimal(n)| > 1 ==> Decimal(n)[0] != '0'
    ensures n > 0 ==> Decimal(n)[0] != '0'
  {
    if n >= 10 {
      NoLeadingZero(n / 10);
      assert Decimal(n)[0] == Decimal(n / 10)[0];
    }
  }

  predicate Ends(rest: string) { rest != "" && (rest[0] == ',' || rest[0] == '}') }

  lemma TakeValueOf(v: Json, rest: string)
    requires (v.Text? ==> Plain(v.text)) && Ends(rest)
    ensures TakeValue(RenderValue(v) + rest) == Taken(v, rest)
  {
    var s := RenderValue(v) + rest;
    match v
    case Text(text) =>
      assert s[1..] == text + "\"" + rest;
      TakeTextOf(text, rest);
    case Number(n) =>
      ValueOfDecimal(n);
      NoLeadingZero(n);
      TakeDigitsOf(Decimal(n), rest);
      assert IsDigit(Decimal(n)[0]) && s[0] == Decimal(n)[0];
  }

  lemma TakeMemberOf(m: Member, rest: string)
    requires PlainMember(m) && Ends(rest)
    ensures TakeMember(RenderMember(m) + rest) == Taken(m, rest)
  {
    hide TakeText, TakeValue, RenderValue;
    var s := RenderMember(m) + rest;
    var after := ":" + (RenderValue(m.value) + rest);
    assert s[1..] == m.name + "\"" + after;
    TakeTextOf(m.name, after);
    assert after[1..] == RenderValue(m.value) + rest;
    TakeValueOf(m.value, rest);
  }

  lemma {:induction false} ParseMembersOf(members: seq<Member>)
    requires members != [] && forall i :: 0 <= i < |members| ==> PlainMember(members[i])
    ensures ParseMembers(RenderMembers(members) + "}") == Some(members)
  {
    hide TakeMember, RenderMember;
    var s := RenderMembers(members) + "}";
    if |members| == 1 {
      TakeMemberOf(members[0], "}");
      assert members == [members[0]];
    } else {
      var rest := "," + (RenderMembers(members[1..]) + "}");
      assert s == RenderMember(members[0]) + rest;
      TakeMemberOf(members[0], rest);
      TakenIsShorter(RenderMember(members[0]) + rest);
      ParseMembersOf(members[1..]);
      assert rest[1..] == RenderMembers(members[1..]) + "}";
      assert rest != "}" by { assert rest[0] == ','; }
      assert members == [members[0]] + members[1..];
    }
  }

  lemma TakenIsShorter(s: string)
    ensures TakeMember(s).Taken? ==> |TakeMember(s).rest| < |s|
  {
  }

  /** Reading a rendered object gives back its members, in order. */
  lemma ParseRender(members: seq<Member>)
    requires members != [] && forall i :: 0 <= i < |members| ==> PlainMember(members[i])
    ensures Parse(Render(members)) == Some(members)
  {
    var s := Render(members);
    assert s[1..] == RenderMembers(members) + "}";
    ParseMembersOf(members);
  }

  lemma {:induction false} RenderedIsAscii(members: seq<Member>)
    requires members != [] && forall i :: 0 <= i < |members| ==> PlainMember(members[i])
    ensures IsAscii(RenderMembers(members))
  {
    MemberIsAscii(members[0]);
    if |members| > 1 {
      RenderedIsAscii(members[1..]);
    }
  }

  lemma MemberIsAscii(m: Member)
    requires PlainMember(m)
    ensures IsAscii(RenderMember(m))
  {
    assert IsAscii(m.name);
    if m.value.Number? {
      assert forall c :: c in Decimal(m.value.number) ==> IsDigit(c);
    } else {
      assert IsAscii(m.value.text);
    }
  }
}
