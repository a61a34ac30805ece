/**
  The DNS answer parser (parseDNSResponse of pkg/proxy/dns.go) against the wire
  format of RFC 1035, sections 4.1.1 to 4.1.4. An address is its four bytes; its
  dotted form is not part of this model.
 */
module DnsParser {

  type byte = b: int | 0 <= b < 256

  datatype Failure = TooShort | NotAResponse | Refused(rcode: nat) | NoAnswers | NoARecord

  datatype Ip = Ip(a: byte, b: byte, c: byte, d: byte)

  datatype Parsed = Addresses(ips: seq<Ip>) | Failed(why: Failure)

  const HEADER := 12

  function U16(b: seq<byte>, o: nat): nat
    requires o + 2 <= |b|
  {
    b[o] as int * 256 + b[o + 1]
  }

  function IpAt(b: seq<byte>, o: nat): Ip
    requires o + 4 <= |b|
  {
    Ip(b[o], b[o + 1], b[o + 2], b[o + 3])
  }

  // ---- What the parser computes ---------------------------------------------------

  /** Past the labels of the question's name, which the parser takes to be plain. */
  function SkipQuestion(b: seq<byte>, o: nat): (p: nat)
    ensures p >= o
    decreases |b| - o
  {
    if o < |b| && 0 < b[o] <= 63 then SkipQuestion(b, o + b[o] + 1) else o
  }

  /** Past a record's name: its labels, and the root or a compression pointer. */
  function SkipName(b: seq<byte>, o: nat): (p: nat)
    ensures p >= o
    decreases |b| - o
  {
    if o >= |b| then o
    else if b[o] == 0 then o + 1
    else if b[o] > 63 then o + 2
    else SkipName(b, o + b[o] + 1)
  }

  /** The addresses of up to n records read from o. */
  function Answers(b: seq<byte>, o: nat, n: nat): seq<Ip>
    decreases n
  {
    if n == 0 || o >= |b| then []
    else
      var p := SkipName(b, o);
      if p >= |b| - 10 then []
      else
        var rdata, length := p + 10, U16(b, p + 8);
        Address(b, p) + Answers(b, rdata + length, n - 1)
  }

  /** The address of the record whose name ends at p, if it is an A record of four bytes. */
  function Address(b: seq<byte>, p: nat): seq<Ip>
    requires p + 10 < |b|
  {
    if U16(b, p) == 1 && U16(b, p + 8) == 4 && p + 14 <= |b| then [IpAt(b, p + 10)] else []
  }

  lemma AnswersFrom(b: seq<byte>, o: nat, n: nat)
    requires n > 0
    ensures o >= |b| || SkipName(b, o) >= |b| - 10 ==> Answers(b, o, n) == []
    ensures o < |b| && SkipName(b, o) < |b| - 10 ==>
      var p := SkipName(b, o); Answers(b, o, n) == Address(b, p) + Answers(b, p + 10 + U16(b, p + 8), n - 1)
  {
  }

  function Parse(b: seq<byte>): Parsed {
    if |b| < HEADER then Failed(TooShort)
    else if b[2] < 128 then Failed(NotAResponse)
    else if b[3] % 16 != 0 then Failed(Refused(b[3] % 16))
    else if U16(b, 6) == 0 then Failed(NoAnswers)
    else
      var ips := Answers(b, SkipQuestion(b, HEADER) + 5, U16(b, 6));
      if ips == [] then Failed(NoARecord) else Addresses(ips)
  }

  method SkipQuestionLabels(response: seq<byte>) returns (offset: nat)
    ensures offset == SkipQuestion(response, HEADER)
  {
    offset := HEADER;
    while offset < |response| && response[offset] != 0
      invariant SkipQuestion(response, offset) == SkipQuestion(response, HEADER)
      decreases |response| - offset
    {
      var labelLen: nat := response[offset];
      if labelLen > 63 { break; }
      offset := offset + labelLen + 1;
    }
  }

  method SkipRecordName(response: seq<byte>, start: nat) returns (offset: nat)
    ensures offset == SkipName(response, start)
  {
    offset := start;
    while offset < |response| && response[offset] != 0
      invariant SkipName(response, offset) == SkipName(response, start)
      decreases |response| - offset
    {
      var labelLen: nat := response[offset];
      if labelLen > 63 { return offset + 2; }
      offset := offset + labelLen + 1;
    }
    if offset < |response| { offset := offset + 1; }
  }

  /** One record: its address if it has one, and where the next begins; more is false at the end of the message. */
  method ReadRecord(response: seq<byte>, start: nat, ghost n: nat) returns (ips: seq<Ip>, next: nat, more: bool)
    requires start < |response| && n > 0
    ensures Answers(response, start, n) == if more then ips + Answers(response, next, n - 1) else []
  {
    AnswersFrom(response, start, n);
    hide SkipName, Answers, U16, IpAt;
    var offset := SkipRecordName(response, start);
    if offset >= |response| - 10 { return [], offset, false; }
    var qtype, rdLength := U16(response, offset), U16(response, offset + 8);
    offset := offset + 10;
    ips := [];
    if qtype == 1 && rdLength == 4 && offset + 4 <= |response| {
      ips := [IpAt(response, offset)];
    }
    next, more := offset + rdLength, true;
  }

  lemma Reassociate(a: seq<Ip>, b: seq<Ip>, c: seq<Ip>)
    ensures a + (b + c) == (a + b) + c
  {
  }

  method ReadAnswers(response: seq<byte>, start: nat, ansCount: nat) returns (ips: seq<Ip>)
    ensures ips == Answers(response, start, ansCount)
  {
    hide *;
    var offset: nat := start;
    ips := [];
    var i: nat := 0;
    ghost var all := Answers(response, start, ansCount);
    while i < ansCount && offset < |response|
      invariant i <= ansCount && all == ips + Answers(response, offset, ansCount - i)
    {
      var found, next, more := ReadRecord(response, offset, ansCount - i);
      if !more { return; }
      Reassociate(ips, found, Answers(response, next, ansCount - i - 1));
      ips, offset, i := ips + found, next, i + 1;
    }
    if i < ansCount { AnswersFrom(response, offset, ansCount - i); } else { AnswersStop(response, offset); }
  }

  /** On every byte string the parser ends without reading outside it. */
  method ParseDNSResponse(response: seq<byte>) returns (r: Parsed)
    ensures r == Parse(response)
  {
    if |response| < HEADER { return Failed(TooShort); }
    if response[2] < 128 { return Failed(NotAResponse); }
    var rcode := response[3] % 16;
    if rcode != 0 { return Failed(Refused(rcode)); }
    var ansCount := U16(response, 6);
    if ansCount == 0 { return Failed(NoAnswers); }
    var offset := SkipQuestionLabels(response);
    var ips := ReadAnswers(response, offset + 5, ansCount);
    r := if ips == [] then Failed(NoARecord) else Addresses(ips);
  }

  // ---- The wire format -------------------------------------------------------------------

  /** A name's labels, and the two bytes of a compression pointer if it ends in one. */
  datatype Name = Name(labels: seq<seq<byte>>, pointer: seq<byte>)

  datatype Record = Record(name: Name, rtype: nat, kind: seq<byte>, ttl: seq<byte>, rdata: seq<byte>)

  /** A question's name, not compressed, with its type and class. */
  datatype Question = Question(name: seq<seq<byte>>, asked: seq<byte>)

  /** A message; rest is whatever follows the answer section. */
  datatype Response = Response(id: seq<byte>, flagsHigh: byte, flagsLow: byte, questions: seq<Question>,
                               answers: seq<Record>, counts: seq<byte>, rest: seq<byte>)

  ghost predicate Labels(labels: seq<seq<byte>>) {
    forall i :: 0 <= i < |labels| ==> 0 < |labels[i]| <= 63
  }

  ghost predicate WellNamed(n: Name) {
    Labels(n.labels) && (n.pointer == [] || (|n.pointer| == 2 && n.pointer[0] >= 0xC0))
  }

  ghost predicate WellFormed(r: Record) {
    WellNamed(r.name) && r.rtype < 0x1_0000 && |r.kind| == 2 && |r.ttl| == 4 && |r.rdata| < 0x1_0000
  }

  ghost predicate AllWellFormed(rs: seq<Record>) {
    forall i :: 0 <= i < |rs| ==> WellFormed(rs[i])
  }

  ghost predicate AllAsked(qs: seq<Question>) {
    forall i :: 0 <= i < |qs| ==> Labels(qs[i].name) && |qs[i].asked| == 4
  }

  /** A message of any number of questions and answers. */
  ghost predicate WellMade(m: Response) {
    && |m.id| == 2 && AllAsked(m.questions) && |m.questions| < 0x1_0000
    && |m.answers| < 0x1_0000 && AllWellFormed(m.answers) && |m.counts| == 4
  }

  /** A response with no error and an answer. */
  ghost predicate WellAnswered(m: Response) {
    WellMade(m) && m.flagsHigh >= 128 && m.flagsLow % 16 == 0 && m.answers != []
  }

  function Bytes16(n: nat): seq<byte>
    requires n < 0x1_0000
  {
    [n / 256, n % 256]
  }

  ghost function LabelBytes(labels: seq<seq<byte>>): seq<byte>
    requires Labels(labels)
    decreases |labels|
  {
    if labels == [] then [] else [|labels[0]|] + labels[0] + LabelBytes(labels[1..])
  }

  ghost function NameBytes(n: Name): seq<byte>
    requires WellNamed(n)
  {
    LabelBytes(n.labels) + if n.pointer == [] then [0] else n.pointer
  }

  ghost function RecordBytes(r: Record): seq<byte>
    requires WellFormed(r)
  {
    NameBytes(r.name) + (FixedBytes(r) + r.rdata)
  }

  ghost function AllBytes(rs: seq<Record>): seq<byte>
    requires AllWellFormed(rs)
    decreases |rs|
  {
    if rs == [] then [] else RecordBytes(rs[0]) + AllBytes(rs[1..])
  }

  ghost function QuestionBytes(qs: seq<Question>): seq<byte>
    requires AllAsked(qs)
    decreases |qs|
  {
    if qs == [] then [] else LabelBytes(qs[0].name) + [0] + qs[0].asked + QuestionBytes(qs[1..])
  }

  ghost function Head(m: Response): (b: seq<byte>)
    requires WellMade(m)
    ensures |b| == HEADER
  {
    m.id + [m.flagsHigh, m.flagsLow] + Bytes16(|m.questions|) + Bytes16(|m.answers|) + m.counts
  }

  ghost function Encode(m: Response): seq<byte>
    requires WellMade(m)
  {
    Head(m) + QuestionBytes(m.questions) + AllBytes(m.answers) + m.rest
  }

  predicate IsAddress(r: Record) { r.rtype == 1 && |r.rdata| == 4 }

  function AddressesOf(rs: seq<Record>): seq<Ip>
    decreases |rs|
  {
    if rs == [] then [] else (if IsAddress(rs[0]) then [IpAt(rs[0].rdata, 0)] else []) + AddressesOf(rs[1..])
  }

  // ---- Reading back what was written -------------------------------------------------------

  /** The first label of what follows pre. */
  lemma LabelAt(pre: seq<byte>, l: seq<byte>, rest: seq<byte>, b: seq<byte>)
    requires 0 < |l| <= 63 && b == pre + ([|l|] + l + rest)
    ensures |pre| < |b| && b[|pre|] == |l|
    ensures b == (pre + [|l|] + l) + rest && |pre + [|l|] + l| == |pre| + |l| + 1
  {
    assert b == pre + [|l|] + l + rest;
  }

  /** The labels of a name are skipped up to what ends them. */
  lemma {:induction false} QuestionSkipped(pre: seq<byte>, labels: seq<seq<byte>>, rest: seq<byte>, b: seq<byte>)
    requires Labels(labels) && b == pre + (LabelBytes(labels) + rest) && rest != [] && (rest[0] == 0 || rest[0] > 63)
    ensures SkipQuestion(b, |pre|) == |pre| + |LabelBytes(labels)|
    decreases |labels|
  {
    if labels == [] {
      assert b[|pre|] == rest[0];
    } else {
      var l, more := labels[0], LabelBytes(labels[1..]) + rest;
      assert LabelBytes(labels) + rest == [|l|] + l + more;
      LabelAt(pre, l, more, b);
      QuestionSkipped(pre + [|l|] + l, labels[1..], rest, b);
    }
  }

  lemma {:induction false} NameSkipped(pre: seq<byte>, n: Name, rest: seq<byte>, b: seq<byte>)
    requires WellNamed(n) && b == pre + (NameBytes(n) + rest)
    ensures SkipName(b, |pre|) == |pre| + |NameBytes(n)|
    decreases |n.labels|
  {
    if n.labels == [] {
      assert b[|pre|] == if n.pointer == [] then 0 else n.pointer[0];
    } else {
      var l, m := n.labels[0], n.(labels := n.labels[1..]);
      assert NameBytes(n) + rest == [|l|] + l + (NameBytes(m) + rest);
      LabelAt(pre, l, NameBytes(m) + rest, b);
      NameSkipped(pre + [|l|] + l, m, rest, b);
    }
  }

  lemma Read16(pre: seq<byte>, n: nat, rest: seq<byte>, b: seq<byte>)
    requires n < 0x1_0000 && b == pre + (Bytes16(n) + rest)
    ensures |pre| + 2 <= |b| && U16(b, |pre|) == n
  {
    assert b[|pre|] == n / 256 && b[|pre| + 1] == n % 256;
  }

  ghost function FixedBytes(r: Record): (b: seq<byte>)
    requires WellFormed(r)
    ensures |b| == 10
  {
    Bytes16(r.rtype) + r.kind + r.ttl + Bytes16(|r.rdata|)
  }

  lemma FixedRead(pre: seq<byte>, r: Record, rest: seq<byte>, b: seq<byte>)
    requires WellFormed(r) && b == pre + (FixedBytes(r) + (r.rdata + rest))
    ensures |b| == |pre| + 10 + |r.rdata| + |rest|
    ensures U16(b, |pre|) == r.rtype && U16(b, |pre| + 8) == |r.rdata|
    ensures b[|pre| + 10..|pre| + 10 + |r.rdata|] == r.rdata
  {
    var middle := pre + Bytes16(r.rtype) + r.kind + r.ttl;
    hide WellNamed;
    assert b == pre + (Bytes16(r.rtype) + (r.kind + r.ttl + Bytes16(|r.rdata|) + r.rdata + rest));
    Read16(pre, r.rtype, r.kind + r.ttl + Bytes16(|r.rdata|) + r.rdata + rest, b);
    assert b == middle + (Bytes16(|r.rdata|) + (r.rdata + rest));
    Read16(middle, |r.rdata|, r.rdata + rest, b);
  }

  /** The fixed part of a record and its data, after its name. */
  lemma RecordRead(pre: seq<byte>, r: Record, rest: seq<byte>, b: seq<byte>)
    requires WellFormed(r) && b == pre + (RecordBytes(r) + rest)
    ensures var p := |pre| + |NameBytes(r.name)|;
            && SkipName(b, |pre|) == p && p + 10 + |r.rdata| + |rest| == |b|
            && U16(b, p) == r.rtype && U16(b, p + 8) == |r.rdata| && b[p + 10..p + 10 + |r.rdata|] == r.rdata
            && p + 10 + |r.rdata| == |pre + RecordBytes(r)|
  {
    var name := NameBytes(r.name);
    hide NameBytes, SkipName, LabelBytes, WellNamed, U16, FixedBytes;
    assert b == pre + (name + (FixedBytes(r) + (r.rdata + rest)));
    NameSkipped(pre, r.name, FixedBytes(r) + (r.rdata + rest), b);
    assert b == (pre + name) + (FixedBytes(r) + (r.rdata + rest));
    FixedRead(pre + name, r, rest, b);
  }

  /** What the parser makes of a record at o whose name ends at p. */
  lemma AnswersStep(b: seq<byte>, o: nat, n: nat, r: Record)
    requires n > 0 && o < |b| && |r.rdata| < 0x1_0000
    requires var p := SkipName(b, o);
             && p + 10 + |r.rdata| <= |b|
             && U16(b, p) == r.rtype && U16(b, p + 8) == |r.rdata| && b[p + 10..p + 10 + |r.rdata|] == r.rdata
    ensures var p := SkipName(b, o);
            if p + 10 == |b| then Answers(b, o, n) == [] && !IsAddress(r)
            else Answers(b, o, n) == (if IsAddress(r) then [IpAt(r.rdata, 0)] else []) + Answers(b, p + 10 + |r.rdata|, n - 1)
  {
    hide SkipName;
  }

  lemma {:induction false} AnswersRead(pre: seq<byte>, rs: seq<Record>, rest: seq<byte>, b: seq<byte>)
    requires AllWellFormed(rs) && b == pre + (AllBytes(rs) + rest)
    ensures Answers(b, |pre|, |rs|) == AddressesOf(rs)
    decreases |rs|
  {
    if rs != [] {
      AllSplit(rs);
      hide *;
      var r, more := rs[0], AllBytes(rs[1..]);
      Regroup(pre, RecordBytes(r), more, rest, b);
      FirstAnswer(pre, r, more + rest, b, |rs|);
      AnswersRead(pre + RecordBytes(r), rs[1..], rest, b);
      AddressesSplit(rs);
    } else {
      assert AddressesOf(rs) == [] && Answers(b, |pre|, 0) == [];
    }
  }

  lemma AllSplit(rs: seq<Record>)
    requires AllWellFormed(rs) && rs != []
    ensures WellFormed(rs[0]) && AllWellFormed(rs[1..]) && AllBytes(rs) == RecordBytes(rs[0]) + AllBytes(rs[1..])
    ensures |rs| > 1 ==> |AllBytes(rs[1..])| > 0
  {
    AllBytesGrow(rs[1..]);
  }

  lemma AddressesSplit(rs: seq<Record>)
    requires rs != []
    ensures AddressesOf(rs) == (if IsAddress(rs[0]) then [IpAt(rs[0].rdata, 0)] else []) + AddressesOf(rs[1..])
  {
  }

  lemma AnswersStop(b: seq<byte>, o: nat)
    ensures Answers(b, o, 0) == []
  {
  }

  lemma FirstAnswer(pre: seq<byte>, r: Record, more: seq<byte>, b: seq<byte>, n: nat)
    requires WellFormed(r) && b == pre + (RecordBytes(r) + more) && n > 0 && (n > 1 ==> |more| > 0)
    ensures Answers(b, |pre|, n)
         == (if IsAddress(r) then [IpAt(r.rdata, 0)] else []) + Answers(b, |pre + RecordBytes(r)|, n - 1)
  {
    RecordRead(pre, r, more, b);
    hide *;
    StepTo(b, |pre|, n, r, |pre + RecordBytes(r)|);
  }

  lemma StepTo(b: seq<byte>, o: nat, n: nat, r: Record, next: nat)
    requires n > 0 && o < next <= |b| && |r.rdata| < 0x1_0000 && (n > 1 ==> next < |b|)
    requires var p := SkipName(b, o);
             && p + 10 + |r.rdata| == next
             && U16(b, p) == r.rtype && U16(b, p + 8) == |r.rdata| && b[p + 10..p + 10 + |r.rdata|] == r.rdata
    ensures Answers(b, o, n) == (if IsAddress(r) then [IpAt(r.rdata, 0)] else []) + Answers(b, next, n - 1)
  {
    hide *;
    AnswersStop(b, next);
    AnswersStep(b, o, n, r);
  }

  lemma Regroup(pre: seq<byte>, x: seq<byte>, y: seq<byte>, rest: seq<byte>, b: seq<byte>)
    requires b == pre + ((x + y) + rest)
    ensures b == pre + (x + (y + rest)) && b == (pre + x) + (y + rest)
  {
  }

  /** A record takes 11 bytes or more. */
  lemma AllBytesGrow(rs: seq<Record>)
    requires AllWellFormed(rs)
    ensures rs != [] ==> |AllBytes(rs)| > 10
  {
    if rs != [] { assert WellFormed(rs[0]) && |RecordBytes(rs[0])| > 10; }
  }

  lemma FirstQuestion(m: Response)
    requires WellAnswered(m) && m.questions != []
    ensures var q, more := m.questions[0], QuestionBytes(m.questions[1..]);
            && Encode(m) == Head(m) + (LabelBytes(q.name) + ([0] + q.asked + (more + AllBytes(m.answers) + m.rest)))
            && SkipQuestion(Encode(m), HEADER) + 5 == |Head(m) + LabelBytes(q.name) + [0] + q.asked|
  {
    var q, more := m.questions[0], QuestionBytes(m.questions[1..]);
    var head, name, answers := Head(m), LabelBytes(q.name), AllBytes(m.answers);
    hide Head, AllBytes, SkipQuestion;
    assert Encode(m) == head + (name + [0] + q.asked + more) + answers + m.rest;
    Sections(head, name, q.asked, more, answers, m.rest, Encode(m));
    QuestionSkipped(head, q.name, [0] + q.asked + (more + answers + m.rest), Encode(m));
  }

  lemma Sections(head: seq<byte>, name: seq<byte>, asked: seq<byte>, more: seq<byte>, answers: seq<byte>,
                 rest: seq<byte>, b: seq<byte>)
    requires b == head + (name + [0] + asked + more) + answers + rest
    ensures b == head + (name + ([0] + asked + (more + answers + rest)))
  {
  }

  /**
    Of a well-formed response to one plainly named question the parser returns
    exactly the addresses of its A records, in the order they are listed, or
    says there is none.
   */
  lemma ParsesWhatIsAnswered(m: Response)
    requires WellAnswered(m) && |m.questions| == 1
    ensures Parse(Encode(m)) == if AddressesOf(m.answers) == [] then Failed(NoARecord) else Addresses(AddressesOf(m.answers))
  {
    var b, q := Encode(m), m.questions[0];
    var head, name, answers := Head(m), LabelBytes(q.name), AllBytes(m.answers);
    HeadRead(m);
    FirstQuestion(m);
    assert QuestionBytes(m.questions[1..]) == [];
    hide Encode, Head, LabelBytes, Answers, AllBytes, SkipQuestion, QuestionBytes;
    assert b == (head + name + [0] + q.asked) + (answers + m.rest);
    AnswersRead(head + name + [0] + q.asked, m.answers, m.rest, b);
  }

  /**
    A message that is no response, tells of an error or lists no answer is
    refused with just that, whatever else it holds, and so is one too short for
    a header.
   */
  lemma RefusesTheRest(m: Response, b: seq<byte>)
    ensures |b| < 12 ==> Parse(b) == Failed(TooShort)
    ensures WellMade(m) && !WellAnswered(m) ==>
      Parse(Encode(m)) == Failed(if m.flagsHigh < 128 then NotAResponse
                                 else if m.flagsLow % 16 != 0 then Refused(m.flagsLow % 16)
                                 else NoAnswers)
  {
    if WellMade(m) { HeadRead(m); }
    hide Encode;
  }

  lemma HeadRead(m: Response)
    requires WellMade(m)
    ensures var b := Encode(m);
            |b| >= HEADER && b[2] == m.flagsHigh && b[3] == m.flagsLow && U16(b, 6) == |m.answers|
  {
    var b, head := Encode(m), Head(m);
    assert b[..HEADER] == head;
    assert head[2] == m.flagsHigh && head[3] == m.flagsLow && head[6] == |m.answers| / 256 && head[7] == |m.answers| % 256;
    assert b[2] == head[2] && b[3] == head[3] && b[6] == head[6] && b[7] == head[7];
  }

  // ---- The count of questions --------------------------------------------------------------

  /** Type A, class IN. */
  const A_IN: seq<byte> := [0, 1, 0, 1]

  /** No label of the name holds a zero byte, as no host name's does. */
  ghost predicate NoZero(labels: seq<seq<byte>>) {
    forall i, k :: 0 <= i < |labels| && 0 <= k < |labels[i]| ==> labels[i][k] != 0
  }

  lemma {:induction false} NoZeroByte(labels: seq<seq<byte>>)
    requires Labels(labels) && NoZero(labels)
    ensures |LabelBytes(labels)| != 1 && forall k :: 0 <= k < |LabelBytes(labels)| ==> LabelBytes(labels)[k] != 0
    decreases |labels|
  {
    if labels != [] {
      NoZeroByte(labels[1..]);
      var l, more := labels[0], LabelBytes(labels[1..]);
      assert LabelBytes(labels) == [|l|] + l + more;
      forall k | 0 <= k < |LabelBytes(labels)| ensures LabelBytes(labels)[k] != 0 {
        if 1 <= k < 1 + |l| { assert LabelBytes(labels)[k] == labels[0][k - 1]; }
        if 1 + |l| <= k { assert LabelBytes(labels)[k] == more[k - 1 - |l|]; }
      }
    }
  }

  /** What follows a question, read where a record's length would be, is no length of an address. */
  lemma NoLengthOfFour(labels: seq<seq<byte>>, pointer: seq<byte>, rest: seq<byte>, x: seq<byte>)
    requires Labels(labels) && NoZero(labels) && WellNamed(Name(labels, pointer))
    requires x == NameBytes(Name(labels, pointer)) + (A_IN + rest) && |rest| >= 3
    ensures U16(x, 4) != 4
  {
    var l := LabelBytes(labels);
    NoZeroByte(labels);
    var tail := (if pointer == [] then [0] else pointer) + (A_IN + rest);
    assert x == l + tail;
    if |l| > 4 { assert x[4] == l[4]; } else { assert x[4] == tail[4 - |l|] && x[5] == tail[5 - |l|]; }
  }

  /** A record of one A address of a host name, and questions for one. */
  ghost predicate OneAddress(m: Response) {
    && WellAnswered(m) && |m.answers| == 1 && m.rest == []
    && IsAddress(m.answers[0]) && m.answers[0].kind == [0, 1] && NoZero(m.answers[0].name.labels)
    && forall i :: 0 <= i < |m.questions| ==> m.questions[i].asked == A_IN && NoZero(m.questions[i].name)
  }

  /** With no question the parser takes the record's own name and type for one, and what is left is too short. */
  lemma NoQuestionFindsNone(m: Response)
    requires OneAddress(m) && m.questions == []
    ensures Answers(Encode(m), SkipQuestion(Encode(m), HEADER) + 5, 1) == []
  {
    var r, b := m.answers[0], Encode(m);
    var end := if r.name.pointer == [] then [0] else r.name.pointer;
    AllSplit(m.answers);
    assert AllBytes(m.answers[1..]) == [];
    assert b == Head(m) + (LabelBytes(r.name.labels) + (end + (FixedBytes(r) + r.rdata)));
    hide FixedBytes, LabelBytes, Head, Encode, SkipQuestion, Answers;
    QuestionSkipped(Head(m), r.name.labels, end + (FixedBytes(r) + r.rdata), b);
    AnswersFrom(b, SkipQuestion(b, HEADER) + 5, 1);
  }

  /** What stands behind the second question's name, type and class. */
  ghost function AfterSecond(m: Response): (x: seq<byte>)
    requires OneAddress(m) && |m.questions| >= 2
  {
    QuestionBytes(m.questions[2..]) + AllBytes(m.answers)
  }

  /** The second question, read as a record, has no address. */
  lemma SecondIsNoAddress(m: Response)
    requires OneAddress(m) && |m.questions| >= 2
    ensures |AfterSecond(m)| > 6 && U16(AfterSecond(m), 4) != 4
  {
    var r, x := m.answers[0], AfterSecond(m);
    AllSplit(m.answers);
    assert AllBytes(m.answers[1..]) == [];
    var fixed := r.ttl + Bytes16(4) + r.rdata;
    assert Bytes16(r.rtype) + r.kind == A_IN;
    assert AllBytes(m.answers) == NameBytes(r.name) + (A_IN + fixed);
    hide LabelBytes, WellFormed;
    if |m.questions| == 2 {
      assert r.name == Name(r.name.labels, r.name.pointer) && x == NameBytes(r.name) + (A_IN + fixed);
      NoLengthOfFour(r.name.labels, r.name.pointer, fixed, x);
    } else {
      var q := m.questions[2];
      assert m.questions[2..][0] == q && m.questions[2..][1..] == m.questions[3..];
      var rest := QuestionBytes(m.questions[3..]) + AllBytes(m.answers);
      assert x == NameBytes(Name(q.name, [])) + (A_IN + rest);
      NoLengthOfFour(q.name, [], rest, x);
    }
  }

  /** Read as a record, a name with a type and class before no length of an address has none. */
  lemma NoAddressHere(pre: seq<byte>, n: Name, x: seq<byte>, b: seq<byte>)
    requires WellNamed(n) && b == pre + (NameBytes(n) + (A_IN + x)) && |x| > 6 && U16(x, 4) != 4
    ensures Answers(b, |pre|, 1) == []
  {
    NameSkipped(pre, n, A_IN + x, b);
    hide Answers, SkipName, NameBytes, WellNamed;
    AnswersFrom(b, |pre|, 1);
    var p := |pre| + |NameBytes(n)|;
    assert b[p + 8] == x[4] && b[p + 9] == x[5];
    AnswersStop(b, p + 10 + U16(b, p + 8));
  }

  lemma SecondStands(head: seq<byte>, first: seq<byte>, asked: seq<byte>, name: seq<byte>, next: seq<byte>,
                     more: seq<byte>, answers: seq<byte>, b: seq<byte>)
    requires b == head + (first + ([0] + asked + ((name + [0] + next + more) + answers + [])))
    ensures b == (head + first + [0] + asked) + ((name + [0]) + (next + (more + answers)))
  {
  }

  lemma ManyQuestionsFindNone(m: Response)
    requires OneAddress(m) && |m.questions| >= 2
    ensures Answers(Encode(m), SkipQuestion(Encode(m), HEADER) + 5, 1) == []
  {
    var b, q, second := Encode(m), m.questions[0], m.questions[1];
    FirstQuestion(m);
    SecondIsNoAddress(m);
    assert m.questions[1..][0] == second && m.questions[1..][1..] == m.questions[2..];
    var head, first, name := Head(m), LabelBytes(q.name), LabelBytes(second.name);
    var more, answers := QuestionBytes(m.questions[2..]), AllBytes(m.answers);
    assert QuestionBytes(m.questions[1..]) == name + [0] + A_IN + more;
    assert NameBytes(Name(second.name, [])) == name + [0] && WellNamed(Name(second.name, []));
    assert AfterSecond(m) == more + answers;
    hide *;
    SecondStands(head, first, q.asked, name, A_IN, more, answers, b);
    NoAddressHere(head + first + [0] + q.asked, Name(second.name, []), more + answers, b);
  }

  /**
    The parser does not read how many questions there are. Of a message of one A
    record of a host name it returns the address if and only if the message has
    one question: with none, or with more, it finds no record.
   */
  lemma ReadsIfOneQuestion(m: Response)
    requires OneAddress(m)
    ensures Parse(Encode(m)) == if |m.questions| == 1 then Addresses([IpAt(m.answers[0].rdata, 0)]) else Failed(NoARecord)
  {
    HeadRead(m);
    AddressesSplit(m.answers);
    assert AddressesOf(m.answers[1..]) == [];
    hide Encode, Answers, SkipQuestion;
    if m.questions == [] {
      NoQuestionFindsNone(m);
    } else if |m.questions| == 1 {
      ParsesWhatIsAnswered(m);
    } else {
      ManyQuestionsFindNone(m);
    }
  }
}
