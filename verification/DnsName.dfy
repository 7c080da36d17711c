/**
 DNS question names. Two decoders read the same wire format, section 3.1 of RFC 1035: the userspace one in
 the packet parser, and the kernel one whose result reaches userspace through a fixed 253-byte buffer.
 */
module DnsName {
  import opened Common

  const DOT: Byte := 46
  const MAX_LABEL: nat := 63
  const NAME_MAX: nat := 253
  const MAX_HOPS: nat := 128
  const KERNEL_SPAN: nat := 512

  type Label = seq<Byte>

  // ---------- The wire format ----------

  predicate ValidLabels(labels: seq<Label>)
  {
    forall i :: 0 <= i < |labels| ==> 1 <= |labels[i]| <= 63
  }

  /** A length octet and that many octets per label, then a zero length octet. */
  function Encode(labels: seq<Label>): seq<Byte>
    requires ValidLabels(labels)
  {
    if labels == [] then [0] else [|labels[0]|] + labels[0] + Encode(labels[1..])
  }

  /** How reading labels off a span ends. */
  datatype Walk = Terminated(labels: seq<Label>) | Unterminated(labels: seq<Label>) | Malformed

  function Prepend(labels: seq<Label>, w: Walk): Walk
  {
    match w
    case Malformed => Malformed
    case Terminated(more) => Terminated(labels + more)
    case Unterminated(more) => Unterminated(labels + more)
  }

  /** A compression pointer (section 4.1.4), an overlong length or a cut-off label makes the name malformed. */
  function WalkFrom(data: seq<Byte>, i: nat): (w: Walk)
    requires i <= |data|
    ensures !w.Malformed? ==> ValidLabels(w.labels)
    decreases |data| - i
  {
    if i == |data| then Unterminated([])
    else if data[i] == 0 then Terminated([])
    else if data[i] > MAX_LABEL || i + 1 + data[i] > |data| then Malformed
    else Prepend([data[i + 1..i + 1 + data[i]]], WalkFrom(data, i + 1 + data[i]))
  }

  function WalkLabels(data: seq<Byte>): Walk
  {
    WalkFrom(data, 0)
  }

  /** The bytes p stand at position i. */
  predicate At(data: seq<Byte>, i: nat, p: seq<Byte>)
  {
    i + |p| <= |data| && forall k :: 0 <= k < |p| ==> data[i + k] == p[k]
  }

  lemma AtSplit(data: seq<Byte>, i: nat, a: seq<Byte>, b: seq<Byte>)
    ensures At(data, i, a + b) <==> At(data, i, a) && At(data, i + |a|, b)
  {
    if At(data, i, a + b) {
      forall k | 0 <= k < |a| ensures data[i + k] == a[k] { assert (a + b)[k] == a[k]; }
      forall k | 0 <= k < |b| ensures data[i + |a| + k] == b[k] { assert data[i + (|a| + k)] == (a + b)[|a| + k]; }
    }
    if At(data, i, a) && At(data, i + |a|, b) {
      forall k | 0 <= k < |a + b| ensures data[i + k] == (a + b)[k] {
        if k >= |a| {
          assert data[i + |a| + (k - |a|)] == b[k - |a|];
        }
      }
    }
  }

  lemma EncodeSplit(data: seq<Byte>, i: nat, labels: seq<Label>)
    requires ValidLabels(labels) && labels != []
    ensures At(data, i, Encode(labels)) <==>
            At(data, i, [|labels[0]|] + labels[0]) && At(data, i + 1 + |labels[0]|, Encode(labels[1..]))
  {
    AtSplit(data, i, [|labels[0]|] + labels[0], Encode(labels[1..]));
  }

  lemma LabelAt(data: seq<Byte>, i: nat, lab: Label)
    requires |lab| < 256
    ensures At(data, i, [|lab|] + lab) <==>
            i + 1 + |lab| <= |data| && data[i] == |lab| && data[i + 1..i + 1 + |lab|] == lab
  {
    AtSplit(data, i, [|lab|], lab);
    ByteAt(data, i, |lab|);
    if i + 1 + |lab| <= |data| && At(data, i + 1, lab) {
      forall k | 0 <= k < |lab| ensures data[i + 1..i + 1 + |lab|][k] == lab[k] { assert data[i + 1 + k] == lab[k]; }
    }
    if i + 1 + |lab| <= |data| && data[i + 1..i + 1 + |lab|] == lab {
      forall k | 0 <= k < |lab| ensures data[i + 1 + k] == lab[k] { assert data[i + 1..i + 1 + |lab|][k] == lab[k]; }
    }
  }

  lemma ByteAt(data: seq<Byte>, i: nat, b: Byte)
    ensures At(data, i, [b]) <==> i < |data| && data[i] == b
  {
    if At(data, i, [b]) {
      assert data[i + 0] == [b][0];
    }
  }

  /** Walking from i finds exactly the label lists whose encoding stands at i. */
  lemma {:induction false} WalkFinds(data: seq<Byte>, i: nat, labels: seq<Label>)
    requires i <= |data|
    ensures WalkFrom(data, i) == Terminated(labels) <==> ValidLabels(labels) && At(data, i, Encode(labels))
    decreases |data| - i
  {
    hide At;
    if ValidLabels(labels) && labels != [] {
      EncodeSplit(data, i, labels);
      LabelAt(data, i, labels[0]);
    }
    if i < |data| && 0 < data[i] <= MAX_LABEL && i + 1 + data[i] <= |data| {
      var n, next := data[i], i + 1 + data[i];
      var w := WalkFrom(data, next);
      if labels == [] {
        ZeroAt(data, i);
      } else {
        WalkFinds(data, next, labels[1..]);
        if w.Terminated? {
          assert ([data[i + 1..next]] + w.labels)[1..] == w.labels;
          assert labels == [labels[0]] + labels[1..];
        }
      }
    } else {
      ZeroAt(data, i);
    }
  }

  lemma ZeroAt(data: seq<Byte>, i: nat)
    ensures At(data, i, Encode([])) <==> i < |data| && data[i] == 0
  {
    ByteAt(data, i, 0);
  }

  /** How many leading bytes of a span the walk looks at. */
  function WalkExtent(data: seq<Byte>, i: nat): (n: nat)
    requires i <= |data|
    ensures i <= n <= |data|
    decreases |data| - i
  {
    if i == |data| then i
    else if data[i] == 0 || data[i] > MAX_LABEL || i + 1 + data[i] > |data| then i + 1
    else WalkExtent(data, i + 1 + data[i])
  }

  lemma SameSlice(a: seq<Byte>, b: seq<Byte>, n: nat, i: nat, j: nat)
    requires i <= j <= n <= |a| && n <= |b| && a[..n] == b[..n]
    ensures a[i..j] == b[i..j]
  {
    forall k | i <= k < j ensures a[k] == b[k] {
      assert a[k] == a[..n][k] && b[k] == b[..n][k];
    }
  }

  /** Spans of equal length that agree as far as the walk looks give the same walk. */
  lemma {:induction false} WalkLooksNoFurther(a: seq<Byte>, b: seq<Byte>, i: nat)
    requires |a| == |b| && i <= |a| && a[..WalkExtent(a, i)] == b[..WalkExtent(a, i)]
    ensures WalkFrom(a, i) == WalkFrom(b, i)
    decreases |a| - i
  {
    hide ValidLabels;
    var n := WalkExtent(a, i);
    if i < |a| {
      assert a[i] == b[i] by { assert a[..n][i] == b[..n][i]; }
      if 0 < a[i] <= MAX_LABEL && i + 1 + a[i] <= |a| {
        var next := i + 1 + a[i];
        assert WalkExtent(a, next) == n;
        WalkLooksNoFurther(a, b, next);
        SameSlice(a, b, n, i + 1, next);
      }
    }
  }

  /** For a terminated name the walk looks through its terminator and no further. */
  lemma {:induction false} ExtentOfName(data: seq<Byte>, i: nat)
    requires i <= |data| && WalkFrom(data, i).Terminated?
    ensures WalkExtent(data, i) == i + |Encode(WalkFrom(data, i).labels)|
    decreases |data| - i
  {
    if data[i] != 0 {
      ExtentOfName(data, i + 1 + data[i]);
      var l, more := data[i + 1..i + 1 + data[i]], WalkFrom(data, i + 1 + data[i]).labels;
      assert ([l] + more)[1..] == more;
    }
  }

  /** A span's labels are those whose encoding it starts with. */
  lemma WalkMeans(data: seq<Byte>, labels: seq<Label>)
    ensures WalkLabels(data) == Terminated(labels) <==> ValidLabels(labels) && Encode(labels) <= data
  {
    hide Encode, WalkFrom;
    WalkFinds(data, 0, labels);
    if ValidLabels(labels) && At(data, 0, Encode(labels)) {
      forall k | 0 <= k < |Encode(labels)| ensures data[k] == Encode(labels)[k] { assert data[0 + k] == data[k]; }
    }
  }

  // ---------- Dotted names ----------

  function Dotted(labels: seq<Label>): seq<Byte>
  {
    if labels == [] then []
    else Extend(Dotted(labels[..|labels| - 1]), labels[|labels| - 1])
  }

  function Extend(name: seq<Byte>, lab: Label): seq<Byte>
  {
    (if name == [] then [] else name + [DOT]) + lab
  }

  lemma {:induction false} DottedLength(labels: seq<Label>)
    requires ValidLabels(labels)
    ensures labels == [] <==> Dotted(labels) == []
    ensures |Dotted(labels)| >= 2 * |labels| - 1
  {
    if labels != [] {
      DottedLength(labels[..|labels| - 1]);
    }
  }

  /** Every name that fits has at most 126 labels. */
  lemma LabelCount(labels: seq<Label>)
    requires ValidLabels(labels) && |Dotted(labels)| < NAME_MAX
    ensures |labels| <= 126
  {
    DottedLength(labels);
  }

  lemma {:induction false} DottedPrefix(labels: seq<Label>, more: seq<Label>)
    ensures |Dotted(labels)| <= |Dotted(labels + more)|
    ensures Dotted(labels) <= Dotted(labels + more)
  {
    if more == [] {
      assert labels + more == labels;
    } else {
      var n := |more| - 1;
      DottedPrefix(labels, more[..n]);
      assert (labels + more)[..|labels + more| - 1] == labels + more[..n];
    }
  }

  lemma {:induction false} EncodedLength(labels: seq<Label>)
    requires ValidLabels(labels) && labels != []
    ensures |Encode(labels)| == |Dotted(labels)| + 2
  {
    EncodedTotal(labels);
    DottedTotal(labels);
  }

  function Total(labels: seq<Label>): nat
  {
    if labels == [] then 0 else 1 + |labels[0]| + Total(labels[1..])
  }

  lemma {:induction false} EncodedTotal(labels: seq<Label>)
    requires ValidLabels(labels)
    ensures |Encode(labels)| == Total(labels) + 1
  {
    if labels != [] {
      EncodedTotal(labels[1..]);
    }
  }

  lemma {:induction false} TotalOfLast(labels: seq<Label>)
    requires labels != []
    ensures Total(labels) == Total(labels[..|labels| - 1]) + 1 + |labels[|labels| - 1]|
  {
    if |labels| > 1 {
      TotalOfLast(labels[1..]);
      assert labels[1..][..|labels| - 2] == labels[..|labels| - 1][1..];
    } else {
      assert labels[1..] == [] && labels[..0] == [];
    }
  }

  lemma {:induction false} DottedTotal(labels: seq<Label>)
    requires ValidLabels(labels)
    ensures |Dotted(labels)| == if labels == [] then 0 else Total(labels) - 1
  {
    if labels != [] {
      DottedTotal(labels[..|labels| - 1]);
      DottedLength(labels[..|labels| - 1]);
      TotalOfLast(labels);
    }
  }

  predicate Permitted(b: Byte)
  {
    97 <= b <= 122 || 65 <= b <= 90 || 48 <= b <= 57 || b == 45 || b == 95 || b == 46
  }

  predicate AllPermitted(lab: Label)
  {
    forall j :: 0 <= j < |lab| ==> Permitted(lab[j])
  }

  predicate PermittedLabels(labels: seq<Label>)
  {
    forall i :: 0 <= i < |labels| ==> AllPermitted(labels[i])
  }

  // ---------- The userspace decoder ----------

  /** The name the packet parser reports for a span; empty for none. */
  function UserName(data: seq<Byte>): seq<Byte>
  {
    var w := WalkLabels(data);
    if w.Terminated? && PermittedLabels(w.labels) && |Dotted(w.labels)| < NAME_MAX then Dotted(w.labels) else []
  }

  /**
   A non-empty result s means exactly that the span starts with the encoding of labels of permitted bytes
   whose dotted join is s, of at most 252 bytes.
   */
  lemma UserNameMeans(data: seq<Byte>, s: seq<Byte>)
    requires s != []
    ensures UserName(data) == s <==>
            exists labels :: ValidLabels(labels) && Encode(labels) <= data && PermittedLabels(labels)
                             && Dotted(labels) == s && |s| <= 252
  {
    if UserName(data) == s {
      WalkMeans(data, WalkLabels(data).labels);
    }
    forall labels | ValidLabels(labels) && Encode(labels) <= data && PermittedLabels(labels)
                    && Dotted(labels) == s && |s| < NAME_MAX
      ensures UserName(data) == s
    {
      WalkMeans(data, labels);
    }
  }

  /** The permitted bytes are the ASCII letters and digits, the hyphen, the underscore and the dot. */
  lemma PermittedIs(b: Byte)
    ensures Permitted(b) <==>
      var c := b as char;
      'a' <= c <= 'z' || 'A' <= c <= 'Z' || '0' <= c <= '9' || c == '-' || c == '_' || c == '.'
  {
  }

  lemma EncodeOne(a: Label)
    requires 1 <= |a| <= 63
    ensures Encode([a]) == [|a|] + a + [0]
  {
    assert [a][1..] == [];
  }

  lemma DottedOne(a: Label)
    ensures Dotted([a]) == a
  {
    assert [a][..0] == [];
  }

  /** Two labels on the wire, each behind its length, and as a dotted name. */
  lemma TwoLabels(a: Label, b: Label)
    requires 1 <= |a| <= 63 && 1 <= |b| <= 63
    ensures ValidLabels([a, b]) && Encode([a, b]) == [|a|] + a + [|b|] + b + [0]
    ensures Dotted([a, b]) == a + [46] + b
  {
    EncodeOne(b);
    DottedOne(a);
    assert [a, b][1..] == [b] && [a, b][..1] == [a];
  }

  /** One label moves from the unread span to the labels read. */
  lemma WalkStep(data: seq<Byte>, i: nat, labels: seq<Label>)
    requires i < |data| && 0 < data[i] <= MAX_LABEL && i + 1 + data[i] <= |data|
    requires WalkLabels(data) == Prepend(labels, WalkFrom(data, i))
    ensures WalkLabels(data) == Prepend(labels + [data[i + 1..i + 1 + data[i]]], WalkFrom(data, i + 1 + data[i]))
  {
    var lab, w := [data[i + 1..i + 1 + data[i]]], WalkFrom(data, i + 1 + data[i]);
    if !w.Malformed? {
      assert labels + (lab + w.labels) == (labels + lab) + w.labels;
    }
  }

  /** A name under construction that outgrows the limit or holds a refused byte settles the result. */
  lemma Settled(data: seq<Byte>, labels: seq<Label>, rest: Walk)
    requires WalkLabels(data) == Prepend(labels, rest)
    requires |Dotted(labels)| >= NAME_MAX || !PermittedLabels(labels)
    ensures UserName(data) == []
  {
    if WalkLabels(data).Terminated? {
      DottedPrefix(labels, rest.labels);
      if !PermittedLabels(labels) {
        var i :| 0 <= i < |labels| && !AllPermitted(labels[i]);
        assert (labels + rest.labels)[i] == labels[i];
      }
    }
  }

  method ParseQname(data: seq<Byte>) returns (out: seq<Byte>)
    ensures out == UserName(data)
  {
    hide Dotted, UserName, WalkFrom;
    out := [];
    var i, count := 0, 0;
    ghost var labels: seq<Label> := [];
    Start(data);
    while i < |data| && count < MAX_HOPS
      invariant 0 <= i <= |data| && count == |labels|
      invariant ValidLabels(labels) && PermittedLabels(labels)
      invariant out == Dotted(labels) && |out| < NAME_MAX
      invariant WalkLabels(data) == Prepend(labels, WalkFrom(data, i))
      decreases |data| - i
    {
      var len := data[i];
      StopsAt(data, i);
      if len == 0 {
        assert labels + [] == labels;
        Accepted(data, labels);
        return;
      }
      if len / 64 != 0 || len > 63 {
        Refused(data);
        return [];
      }
      if i + 1 + len > |data| {
        Refused(data);
        return [];
      }
      var ok;
      ghost var lab := data[i + 1..i + 1 + len];
      ok, out := AppendLabel(data, i + 1, len, out);
      WalkStep(data, i, labels);
      DottedStep(labels, lab);
      labels := labels + [lab];
      assert labels[|labels| - 1] == lab;
      if !ok {
        Settled(data, labels, WalkFrom(data, i + 1 + len));
        return [];
      }
      i := i + 1 + len;
      count := count + 1;
    }
    if i < |data| {
      LabelCount(labels);
      assert false;
    }
    StopsAt(data, i);
    Refused(data);
    return [];
  }

  /** Where and how a walk stops. */
  lemma StopsAt(data: seq<Byte>, i: nat)
    requires i <= |data|
    ensures i == |data| ==> WalkFrom(data, i) == Unterminated([])
    ensures i < |data| && data[i] == 0 ==> WalkFrom(data, i) == Terminated([])
    ensures i < |data| && data[i] != 0 && (data[i] > MAX_LABEL || i + 1 + data[i] > |data|) ==>
      WalkFrom(data, i) == Malformed
  {
  }

  /** The dot and the bytes of one label; refused when a byte is not permitted or the name gets too long. */
  method AppendLabel(data: seq<Byte>, at: nat, len: nat, name: seq<Byte>) returns (ok: bool, out: seq<Byte>)
    requires len > 0 && at + len <= |data| && |name| < NAME_MAX
    ensures var lab := data[at..at + len];
            ok <==> AllPermitted(lab) && |Extend(name, lab)| < NAME_MAX
    ensures ok ==> out == Extend(name, data[at..at + len])
  {
    out := name;
    ghost var lab := data[at..at + len];
    if out != [] {
      if |out| + 1 >= NAME_MAX {
        return false, out;
      }
      out := out + [DOT];
    }
    ghost var stem := out;
    for j := 0 to len
      invariant out == stem + lab[..j] && |out| < NAME_MAX
      invariant forall k :: 0 <= k < j ==> Permitted(lab[k])
    {
      var ch := data[at + j];
      assert ch == lab[j];
      if !((97 <= ch <= 122) || (65 <= ch <= 90) || (48 <= ch <= 57) || ch == 45 || ch == 95 || ch == 46) {
        return false, out;
      }
      if |out| + 1 >= NAME_MAX {
        return false, out;
      }
      out := out + [ch];
    }
    assert lab[..len] == lab;
    return true, out;
  }

  lemma Start(data: seq<Byte>)
    ensures Dotted([]) == []
    ensures WalkLabels(data) == Prepend([], WalkFrom(data, 0))
  {
    var w := WalkFrom(data, 0);
    if !w.Malformed? {
      assert [] + w.labels == w.labels;
    }
  }

  lemma Accepted(data: seq<Byte>, labels: seq<Label>)
    requires WalkLabels(data) == Terminated(labels) && PermittedLabels(labels) && |Dotted(labels)| < NAME_MAX
    ensures UserName(data) == Dotted(labels)
  {
  }

  lemma Refused(data: seq<Byte>)
    requires !WalkLabels(data).Terminated?
    ensures UserName(data) == []
  {
  }

  lemma DottedStep(labels: seq<Label>, lab: Label)
    ensures Dotted(labels + [lab]) == Extend(Dotted(labels), lab)
  {
    assert (labels + [lab])[..|labels|] == labels;
  }

  // ---------- The kernel decoder ----------

  /** The length the kernel decoder returns: -1 when it gives up. Running off the span is not a failure here. */
  function KernelLength(data: seq<Byte>): int
  {
    var w := WalkLabels(data);
    if w.Malformed? || |Dotted(w.labels)| >= NAME_MAX then -1 else |Dotted(w.labels)|
  }

  /** Copies the dotted name and a terminating NUL; no write leaves the 253-byte buffer. */
  method CopyQname(payload: seq<Byte>, out: array<Byte>) returns (r: int)
    requires out.Length == NAME_MAX
    modifies out
    ensures r == KernelLength(payload)
    ensures r >= 0 ==> out[..r] == Dotted(WalkLabels(payload).labels) && out[r] == 0
  {
    hide Dotted, WalkFrom;
    var i, o, hops := 0, 0, 0;
    ghost var labels: seq<Label> := [];
    Start(payload);
    while i < |payload| && hops < MAX_HOPS
      invariant 0 <= i <= |payload| && hops == |labels| && 0 <= o < NAME_MAX
      invariant ValidLabels(labels) && out[..o] == Dotted(labels)
      invariant WalkLabels(payload) == Prepend(labels, WalkFrom(payload, i))
      decreases |payload| - i
    {
      var len := payload[i];
      StopsAt(payload, i);
      if len == 0 {
        break;
      }
      if len / 64 != 0 || len > 63 {
        return -1;
      }
      i := i + 1;
      if i + len > |payload| {
        return -1;
      }
      ghost var lab := payload[i..i + len];
      o := CopyLabel(payload, i, len, out, o);
      WalkStep(payload, i - 1, labels);
      DottedStep(labels, lab);
      labels := labels + [lab];
      if o < 0 {
        TooLong(payload, labels, WalkFrom(payload, i + len));
        return -1;
      }
      i := i + len;
      hops := hops + 1;
    }
    LabelCount(labels);
    StopsAt(payload, i);
    assert labels + [] == labels;
    out[o] := 0;
    return o;
  }

  /** The dot and the bytes of one label, or -1 when the buffer is full. */
  method CopyLabel(payload: seq<Byte>, at: nat, len: nat, out: array<Byte>, o: nat) returns (end: int)
    requires len > 0 && at + len <= |payload| && o < out.Length == NAME_MAX
    modifies out
    ensures var lab := payload[at..at + len];
            end == if |Extend(old(out[..o]), lab)| >= NAME_MAX then -1 else |Extend(old(out[..o]), lab)|
    ensures end >= 0 ==> out[..end] == Extend(old(out[..o]), payload[at..at + len])
  {
    ghost var lab := payload[at..at + len];
    end := o;
    if end > 0 {
      if end >= NAME_MAX - 1 {
        return -1;
      }
      out[end] := DOT;
      end := end + 1;
    }
    ghost var stem := out[..end];
    for j := 0 to len
      invariant end == |stem| + j < NAME_MAX && out[..end] == stem + lab[..j]
    {
      if end >= NAME_MAX - 1 {
        return -1;
      }
      if at + j >= |payload| {
        assert false;
        return -1;
      }
      out[end] := payload[at + j];
      end := end + 1;
      assert out[..end] == stem + lab[..j] + [lab[j]];
    }
    assert lab[..len] == lab;
  }

  lemma TooLong(data: seq<Byte>, labels: seq<Label>, rest: Walk)
    requires WalkLabels(data) == Prepend(labels, rest) && |Dotted(labels)| >= NAME_MAX
    ensures KernelLength(data) == -1
  {
    if !rest.Malformed? {
      DottedPrefix(labels, rest.labels);
    }
  }

  function UntilNul(s: seq<Byte>): (r: seq<Byte>)
    ensures r <= s && 0 !in r && (r == s || s[|r|] == 0)
  {
    if s == [] || s[0] == 0 then [] else [s[0]] + UntilNul(s[1..])
  }

  method BoundedString(src: seq<Byte>, cap: nat) returns (r: seq<Byte>)
    requires cap <= |src|
    ensures r == UntilNul(src[..cap])
  {
    var len := 0;
    while len < cap && src[len] != 0
      invariant 0 <= len <= cap
      invariant forall k :: 0 <= k < len ==> src[k] != 0
    {
      len := len + 1;
    }
    r := src[..len];
    UntilNulIs(src[..cap], r);
  }

  lemma UntilNulIs(s: seq<Byte>, r: seq<Byte>)
    requires r <= s && 0 !in r && (r == s || s[|r|] == 0)
    ensures r == UntilNul(s)
  {
    hide UntilNul;
    assert |r| == |UntilNul(s)|;
  }

  /** The name userspace reports for a span that came through the kernel. */
  function KernelName(data: seq<Byte>): seq<Byte>
  {
    if KernelLength(data) < 0 then [] else UntilNul(Dotted(WalkLabels(data).labels))
  }

  /** From the packet bytes through the ring-buffer event to the normalized name. */
  method KernelPath(payload: seq<Byte>) returns (name: seq<Byte>)
    ensures name == KernelName(payload)
  {
    hide WalkLabels, Dotted;
    var queryName := new Byte[NAME_MAX];
    var r := CopyQname(payload, queryName);
    var queryLen := if r >= 0 then (r + 1) % 0x1_0000 else 0;
    name := [];
    if 0 < queryLen <= NAME_MAX {
      name := BoundedString(queryName[..], queryLen);
      assert queryName[..][..queryLen] == queryName[..r] + [0];
      NulEnds(queryName[..r]);
    }
  }

  lemma {:induction false} NulEnds(s: seq<Byte>)
    ensures UntilNul(s + [0]) == UntilNul(s)
  {
    if s != [] {
      NulEnds(s[1..]);
      assert (s + [0])[1..] == s[1..] + [0];
    }
  }

  // ---------- Agreement ----------

  lemma {:induction false} PermittedHasNoNul(labels: seq<Label>)
    requires PermittedLabels(labels)
    ensures UntilNul(Dotted(labels)) == Dotted(labels)
  {
    DottedHasNoNul(labels);
  }

  lemma {:induction false} DottedHasNoNul(labels: seq<Label>)
    requires PermittedLabels(labels)
    ensures 0 !in Dotted(labels)
  {
    if labels != [] {
      DottedHasNoNul(labels[..|labels| - 1]);
      var last := labels[|labels| - 1];
      assert AllPermitted(last);
      assert 0 !in last;
    }
  }

  lemma {:induction false} WalkTotal(data: seq<Byte>, i: nat)
    requires i <= |data| && !WalkFrom(data, i).Malformed?
    ensures i + Total(WalkFrom(data, i).labels) <= |data|
    decreases |data| - i
  {
    if i < |data| && data[i] != 0 {
      var next := i + 1 + data[i];
      WalkTotal(data, next);
      var labels := WalkFrom(data, i).labels;
      assert labels[1..] == WalkFrom(data, next).labels;
    }
  }

  /** A walk that is cut short just before the terminator has still seen every label. */
  lemma {:induction false} WalkCut(data: seq<Byte>, i: nat)
    requires i <= |data| && WalkFrom(data, i).Terminated? && i + Total(WalkFrom(data, i).labels) <= |data|
    ensures var labels := WalkFrom(data, i).labels;
      WalkFrom(data[..i + Total(labels)], i) == Unterminated(labels)
    decreases |data| - i
  {
    hide ValidLabels;
    var labels := WalkFrom(data, i).labels;
    if data[i] != 0 {
      var next := i + 1 + data[i];
      var more := WalkFrom(data, next).labels;
      assert labels == [data[i + 1..next]] + more;
      assert labels[1..] == more;
      WalkCut(data, next);
      var cut := data[..i + Total(labels)];
      assert Total(labels) == 1 + data[i] + Total(more);
      assert cut[i + 1..next] == data[i + 1..next];
      assert WalkFrom(cut, i) == Prepend([data[i + 1..next]], WalkFrom(cut, next));
    } else {
      assert labels == [];
    }
  }

  /**
   The kernel path works on as many bytes as the datagram's own length field leaves, at most 512; that may be less
   than was captured, or more, with any bytes after it. Where the captured bytes hold a name, the kernel path finds
   it exactly when its span reaches the name's terminator.
   */
  lemma DecodersAgree(data: seq<Byte>, beyond: seq<Byte>, k: nat)
    requires UserName(data) != [] && k <= |data + beyond|
    ensures KernelName((data + beyond)[..k]) == UserName(data) <==> k >= |UserName(data)| + 1
  {
    hide WalkFrom, Dotted, Encode, Total;
    var labels, all := WalkLabels(data).labels, data + beyond;
    WalkMeans(data, labels);
    assert Encode(labels) <= all;
    WalkMeans(all, labels);
    DottedLength(labels);
    EncodedLength(labels);
    PermittedHasNoNul(labels);
    DottedTotal(labels);
    if k >= |Encode(labels)| {
      assert Encode(labels) <= all[..k];
      WalkMeans(all[..k], labels);
    } else if k == |UserName(data)| + 1 {
      WalkCut(all, 0);
    } else {
      ShortSpan(all[..k], |UserName(data)|);
    }
  }

  /** The kernel path finds no name as long as the span. */
  lemma ShortSpan(data: seq<Byte>, n: nat)
    requires |data| <= n && n > 0
    ensures |KernelName(data)| < n
  {
    hide WalkFrom, Dotted, Total;
    if KernelLength(data) >= 0 {
      WalkTotal(data, 0);
      DottedTotal(WalkLabels(data).labels);
    }
  }

  /** Names fit the kernel's 512 bytes, so the cap never decides. */
  lemma CapNeverDecides(data: seq<Byte>)
    requires UserName(data) != [] && |data| >= 512
    ensures KernelName(data[..512]) == UserName(data)
  {
    hide WalkLabels, Dotted, KernelName;
    DecodersAgree(data, [], KERNEL_SPAN);
    assert data + [] == data;
  }

  /** What must be known of a span for the two paths to report the same. */
  predicate SameOnBothPaths(data: seq<Byte>)
  {
    var w := WalkLabels(data);
    || w.Malformed?
    || |Dotted(w.labels)| >= NAME_MAX
    || w.labels == []
    || w.labels[0][0] == 0
    || (w.Terminated? && PermittedLabels(w.labels))
  }

  lemma DottedStartsWith(labels: seq<Label>)
    requires ValidLabels(labels) && labels != []
    ensures Dotted(labels) != [] && Dotted(labels)[0] == labels[0][0]
  {
    var first := labels[..1];
    assert first[..0] == [];
    assert Dotted(first) == labels[0];
    DottedPrefix(first, labels[1..]);
    assert first + labels[1..] == labels;
  }

  /**
   The two paths report the same for a span exactly when the kernel gives up, finds nothing before a NUL, or
   the name is terminated and all its bytes are permitted.
   */
  lemma AgreementCondition(data: seq<Byte>)
    ensures KernelName(data) == UserName(data) <==> SameOnBothPaths(data)
  {
    hide Dotted;
    var w := WalkLabels(data);
    if !w.Malformed? && |Dotted(w.labels)| < NAME_MAX {
      DottedLength(w.labels);
      if w.labels != [] {
        DottedStartsWith(w.labels);
        if w.labels[0][0] == 0 {
          assert !AllPermitted(w.labels[0]);
        }
      }
      if PermittedLabels(w.labels) {
        PermittedHasNoNul(w.labels);
      }
    }
  }

  /** A span on which they differ: a label that is a space, which only the packet parser refuses. */
  lemma DecodersDiffer()
    ensures KernelName([1, 32, 0]) == [32] && UserName([1, 32, 0]) == []
  {
    var data: seq<Byte> := [1, 32, 0];
    var lab: Label := [32];
    assert WalkFrom(data, 2) == Terminated([]);
    assert data[1..2] == lab;
    assert WalkLabels(data) == Terminated([lab]);
    assert [lab][..0] == [] && Dotted([lab]) == lab;
    assert UntilNul([32]) == [32] by { UntilNulIs([32], [32]); }
    assert !AllPermitted([lab][0]);
  }
}
