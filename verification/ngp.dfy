/** The NGP wire codec: `VERSION|LENGTH|TYPE|field|...|` frames, the parser
    that splits them and the five builders that produce them. */
module Ngp {
  import opened Text

  /** NGP_MAX_FIELDS: the parser collects at most this many fields. */
  const MaxFields := 8

  /** ngp_message: a 4-byte type and the collected fields, in wire order. */
  datatype Message = Message(msgType: string, fields: seq<string>)

  predicate EndsWithBar(s: string) { |s| > 0 && s[|s| - 1] == '|' }

  predicate BarFree(w: string) { forall k :: 0 <= k < |w| ==> w[k] != '|' }

  predicate AllBarFree(fs: seq<string>) { forall k :: 0 <= k < |fs| ==> BarFree(fs[k]) }

  /** `memchr(s + from, '|', |s| - from)`: the offset of the first delimiter
      at or after `from`, or `|s|` when there is none; so it finds one
      whenever the text ends with one. */
  function FindBar(s: string, from: nat): (i: nat)
    requires from <= |s|
    ensures from <= i <= |s|
    ensures i < |s| ==> s[i] == '|'
    ensures from < |s| && s[|s| - 1] == '|' ==> i < |s|
    decreases |s| - from
  {
    if from == |s| then |s| else if s[from] == '|' then from else FindBar(s, from + 1)
  }

  /** No delimiter comes between `from` and what FindBar finds. */
  lemma {:induction false} FindBarSkips(s: string, from: nat)
    requires from <= |s|
    ensures BarFree(s[from..FindBar(s, from)])
    decreases |s| - from
  {
    if from < |s| && s[from] != '|' {
      FindBarSkips(s, from + 1);
      assert s[from..FindBar(s, from)] == [s[from]] + s[from + 1..FindBar(s, from + 1)];
    }
  }

  /** The fields the collection loop gathers from offset `p` of `s`, with
      room for `room` more: while more than the final delimiter is left, it
      takes the text up to the next delimiter and moves past it. */
  function FieldsFrom(s: string, p: nat, room: nat): seq<string>
    requires p <= |s| && (p == |s| || EndsWithBar(s))
    decreases |s| - p
  {
    if |s| - p > 1 && room > 0 then
      var next := FindBar(s, p);
      [s[p..next]] + FieldsFrom(s, next + 1, room - 1)
    else []
  }

  /** The loop never collects more fields than it has room for. */
  lemma {:induction false} FieldsFit(s: string, p: nat, room: nat)
    requires p <= |s| && (p == |s| || EndsWithBar(s))
    ensures |FieldsFrom(s, p, room)| <= room
    decreases |s| - p
  {
    if |s| - p > 1 && room > 0 {
      FieldsFit(s, FindBar(s, p) + 1, room - 1);
    }
  }

  /** What `ngp_parse` makes of the bytes `s`: None where it returns -1. A
      message it accepts has a 4-byte type, at most MaxFields fields, and no
      delimiter inside a field. */
  function Parsed(s: string): (r: Option<Message>)
    ensures r.Some? ==> EndsWithBar(s) && |r.value.msgType| == 4
    ensures r.Some? ==> |r.value.fields| <= MaxFields && AllBarFree(r.value.fields)
  {
    if !EndsWithBar(s) then None
    else
      var vsep := FindBar(s, 0);
      if vsep == |s| then None
      else
        var lsep := FindBar(s, vsep + 1);
        if lsep == |s| then None
        else
          var t := lsep + 1;
          if |s| - t < 4 then None
          else if t + 4 >= |s| || s[t + 4] != '|' then None
          else
            FieldsBarFree(s, t + 5, MaxFields);
            FieldsFit(s, t + 5, MaxFields);
            Some(Message(s[t..t + 4], FieldsFrom(s, t + 5, MaxFields)))
  }

  /** No collected field contains a delimiter. */
  lemma {:induction false} FieldsBarFree(s: string, p: nat, room: nat)
    requires p <= |s| && (p == |s| || EndsWithBar(s))
    ensures AllBarFree(FieldsFrom(s, p, room))
    decreases |s| - p
  {
    if |s| - p > 1 && room > 0 {
      var next := FindBar(s, p);
      FindBarSkips(s, p);
      FieldsBarFree(s, next + 1, room - 1);
      var fs := FieldsFrom(s, p, room);
      assert fs[0] == s[p..next];
      assert forall k :: 1 <= k < |fs| ==> fs[k] == FieldsFrom(s, next + 1, room - 1)[k - 1];
    }
  }

  /** `memchr` over the array: the first delimiter in `buf[from..to]`. */
  method FindDelimiter(buf: array<char>, from: nat, to: nat) returns (i: nat)
    requires from <= to <= buf.Length
    ensures i == FindBar(buf[..to], from)
  {
    i := from;
    while i < to && buf[i] != '|'
      invariant from <= i <= to
      invariant FindBar(buf[..to], from) == FindBar(buf[..to], i)
    {
      i := i + 1;
    }
  }

  /** The first delimiter at or after `from` is what FindBar finds. */
  lemma {:induction false} FindBarIsFirst(s: string, from: nat, i: nat)
    requires from <= i <= |s|
    requires i < |s| ==> s[i] == '|'
    requires forall k :: from <= k < i ==> s[k] != '|'
    ensures FindBar(s, from) == i
    decreases i - from
  {
    if from < i {
      FindBarIsFirst(s, from + 1, i);
    }
  }

  /** `after` is `before` with some delimiters overwritten by NUL bytes. */
  ghost predicate OnlyBarsNulled(before: string, after: string) {
    |before| == |after| &&
    forall i :: 0 <= i < |before| ==> after[i] == before[i] || (before[i] == '|' && after[i] == '\0')
  }

  /** ngp_parse: splits `buf[..len]` in place, writing a NUL over the
      delimiter that ends each collected field. */
  method Parse(buf: array<char>, len: nat) returns (r: Option<Message>)
    requires len <= buf.Length
    modifies buf
    ensures r == Parsed(old(buf[..len]))
    ensures OnlyBarsNulled(old(buf[..]), buf[..])
  {
    if len == 0 || buf[len - 1] != '|' {
      return None;
    }
    ghost var s := buf[..len];
    var vsep := FindDelimiter(buf, 0, len);
    if vsep == len {
      return None;
    }
    var p := vsep + 1;
    var lsep := FindDelimiter(buf, p, len);
    if lsep == len {
      return None;
    }
    p := lsep + 1;
    if len - p < 4 {
      return None;
    }
    var msgType := buf[p..p + 4];
    assert msgType == s[p..p + 4] by {
      assert forall k :: p <= k < p + 4 ==> buf[k] == s[k];
    }
    p := p + 4;
    if p >= len || buf[p] != '|' {
      assert p < len ==> buf[p] == s[p];
      return None;
    }
    assert s[p] == '|';
    p := p + 1;
    assert Parsed(s) == Some(Message(msgType, FieldsFrom(s, p, MaxFields)));
    var fields := CollectFields(buf, len, p);
    r := Some(Message(msgType, fields));
  }

  /** The field loop of ngp_parse: from offset `start`, while `p` is before
      the final byte and fewer than MaxFields are collected, take the text up
      to the next delimiter and overwrite that delimiter with a NUL. */
  method CollectFields(buf: array<char>, len: nat, start: nat) returns (fields: seq<string>)
    requires start <= len <= buf.Length && EndsWithBar(buf[..len])
    modifies buf
    ensures fields == FieldsFrom(old(buf[..len]), start, MaxFields)
    ensures OnlyBarsNulled(old(buf[..]), buf[..])
  {
    ghost var s := buf[..len];
    var p := start;
    fields := [];
    while p < len - 1 && |fields| < MaxFields
      invariant start <= p <= len && |fields| <= MaxFields
      invariant buf[..len][p..] == s[p..]
      invariant fields + FieldsFrom(s, p, MaxFields - |fields|) == FieldsFrom(s, start, MaxFields)
      invariant OnlyBarsNulled(old(buf[..]), buf[..])
      decreases len - p
    {
      var next, field := CutField(buf, len, p, s, old(buf[..]));
      ghost var room := MaxFields - |fields|;
      FieldsLoopStep(s, start, p, next, fields, room);
      fields := fields + [field];
      p := next + 1;
      assert MaxFields - |fields| == room - 1;
    }
    assert FieldsFrom(s, p, MaxFields - |fields|) == [];
    assert fields + [] == fields;
  }

  /** One turn of the field loop: the field from `p` up to the next
      delimiter, and that delimiter overwritten with a NUL. */
  method CutField(buf: array<char>, len: nat, p: nat, ghost s: string, ghost orig: string) returns (next: nat, field: string)
    requires p < len - 1 && len <= buf.Length && |s| == len && EndsWithBar(s)
    requires buf[..len][p..] == s[p..]
    requires OnlyBarsNulled(orig, buf[..])
    modifies buf
    ensures next == FindBar(s, p) && next < len
    ensures field == s[p..next]
    ensures OnlyBarsNulled(orig, buf[..])
    ensures buf[..len][next + 1..] == s[next + 1..]
  {
    next := FindDelimiter(buf, p, len);
    ghost var before := buf[..];
    SameBytesFrom(before, len, s, p, next);
    field := buf[p..next];
    buf[next] := '\0';
    assert buf[..] == before[next := '\0'];
    NullingOneBar(orig, before, next);
  }

  /** What one turn of the field loop knows about the bytes it reads: the
      delimiter search and the field agree with those on `s`, and nulling the
      delimiter leaves the rest of the input as it was. */
  lemma SameBytesFrom(before: string, len: nat, s: string, p: nat, next: nat)
    requires p < len <= |before| && |s| == len && before[..len][p..] == s[p..]
    requires next == FindBar(before[..len], p)
    ensures next == FindBar(s, p)
    ensures next < len ==> before[next] == '|'
    ensures before[p..next] == s[p..next]
    ensures next < len ==> before[next := '\0'][..len][next + 1..] == s[next + 1..]
  {
    FindBarSameSuffix(before[..len], s, p);
    assert before[p..next] == before[..len][p..][..next - p];
    assert s[p..next] == s[p..][..next - p];
    if next < len {
      assert before[next := '\0'][..len][next + 1..] == before[..len][p..][next + 1 - p..];
      assert s[next + 1..] == s[p..][next + 1 - p..];
    }
  }

  /** One turn of the field loop keeps the accumulated fields a prefix of
      the whole result. */
  lemma FieldsLoopStep(s: string, start: nat, p: nat, next: nat, done: seq<string>, room: nat)
    requires EndsWithBar(s) && start <= p < |s| - 1 && room > 0
    requires next == FindBar(s, p)
    requires done + FieldsFrom(s, p, room) == FieldsFrom(s, start, MaxFields)
    ensures next < |s| && s[next] == '|'
    ensures (done + [s[p..next]]) + FieldsFrom(s, next + 1, room - 1) == FieldsFrom(s, start, MaxFields)
  {
    AppendOne(done, s[p..next], FieldsFrom(s, next + 1, room - 1));
  }

  lemma AppendOne(done: seq<string>, w: string, tail: seq<string>)
    ensures (done + [w]) + tail == done + ([w] + tail)
  {
  }

  lemma NullingOneBar(orig: string, before: string, k: nat)
    requires OnlyBarsNulled(orig, before) && k < |before| && before[k] == '|'
    ensures OnlyBarsNulled(orig, before[k := '\0'])
  {
  }

  /** FindBar from `from` looks only at the bytes from `from` on. */
  lemma {:induction false} FindBarSameSuffix(a: string, b: string, from: nat)
    requires from <= |a| == |b| && a[from..] == b[from..]
    ensures FindBar(a, from) == FindBar(b, from)
    decreases |a| - from
  {
    if from < |a| {
      assert a[from] == a[from..][0] && b[from] == b[from..][0];
      assert a[from + 1..] == a[from..][1..] && b[from + 1..] == b[from..][1..];
      FindBarSameSuffix(a, b, from + 1);
    }
  }

  // ---------------------------------------------------------------------
  // What the parser accepts, stated without offsets

  /** What the parser makes of the bytes after the length separator. */
  function ParsedAfterLength(rest: string): Option<Message>
  {
    if |rest| < 5 || rest[4] != '|' || !EndsWithBar(rest) then None
    else
      Some(Message(rest[..4], FieldsFrom(rest, 5, MaxFields)))
  }

  /** The version and length fields are never checked: any two delimiter-free
      texts in front of the same rest parse the same, and the result depends
      on the rest alone. */
  lemma HeaderIgnored(version: string, length: string, rest: string)
    requires BarFree(version) && BarFree(length)
    ensures Parsed(version + "|" + length + "|" + rest) == ParsedAfterLength(rest)
  {
    var a := version + "|" + length + "|";
    var s := a + rest;
    assert s == version + "|" + length + "|" + rest;
    TwoBars(version, length, rest, s);
    if |rest| >= 5 {
      assert s[|a|..|a| + 4] == rest[..4];
      assert s[|a| + 4] == rest[4];
      assert s[|s| - 1] == rest[|rest| - 1];
      if rest[4] == '|' && EndsWithBar(rest) {
        FieldsShifted(a, rest, 5, MaxFields);
      }
    }
  }

  /** FindBar on `a + r` from inside `r` finds what FindBar on `r` finds,
      moved by the length of `a`. */
  lemma {:induction false} FindBarShifted(a: string, r: string, i: nat)
    requires i <= |r|
    ensures FindBar(a + r, |a| + i) == |a| + FindBar(r, i)
    decreases |r| - i
  {
    if i < |r| {
      assert (a + r)[|a| + i] == r[i];
      if r[i] != '|' {
        FindBarShifted(a, r, i + 1);
      }
    }
  }

  /** The field loop over `a + r`, started inside `r`, collects what it
      collects over `r` alone. */
  lemma {:induction false} FieldsShifted(a: string, r: string, i: nat, room: nat)
    requires i <= |r| && (i == |r| || EndsWithBar(r))
    ensures |a| + i == |a + r| || EndsWithBar(a + r)
    ensures FieldsFrom(a + r, |a| + i, room) == FieldsFrom(r, i, room)
    decreases |r| - i
  {
    if i < |r| {
      assert (a + r)[|a + r| - 1] == r[|r| - 1];
    }
    if |r| - i > 1 && room > 0 {
      var next := FindBar(r, i);
      FieldsShifted(a, r, next + 1, room - 1);
      FindBarShifted(a, r, i);
      SliceShifted(a, r, i, next);
      assert |a| + (next + 1) == |a| + next + 1;
      FieldsShiftedStep(a + r, |a|, r, i, room);
    } else {
      assert FieldsFrom(a + r, |a| + i, room) == [];
    }
  }

  /** The inductive step of FieldsShifted, for `r` found at offset `d` of
      `s`: both loops take the same field, then go on alike. */
  lemma FieldsShiftedStep(s: string, d: nat, r: string, i: nat, room: nat)
    requires EndsWithBar(r) && EndsWithBar(s) && i < |r| - 1 && room > 0 && d + |r| == |s|
    requires FindBar(s, d + i) == d + FindBar(r, i)
    requires s[d + i..d + FindBar(r, i)] == r[i..FindBar(r, i)]
    requires FieldsFrom(s, d + FindBar(r, i) + 1, room - 1) == FieldsFrom(r, FindBar(r, i) + 1, room - 1)
    ensures FieldsFrom(s, d + i, room) == FieldsFrom(r, i, room)
  {
    var next, m := FindBar(r, i), FindBar(s, d + i);
    assert m + 1 == d + next + 1;
  }

  lemma SliceShifted(a: string, r: string, i: nat, j: nat)
    requires i <= j <= |r|
    ensures (a + r)[|a| + i..|a| + j] == r[i..j]
  {
    assert forall k :: i <= k < j ==> (a + r)[|a| + k] == r[k];
  }

  /** Bytes with fewer than two delimiters never parse: with the last byte a
      delimiter, the version separator is always found, so it is the length
      separator that is missing. */
  lemma FewerThanTwoBars(s: string)
    requires forall i, j :: 0 <= i < j < |s| ==> s[i] != '|' || s[j] != '|'
    ensures Parsed(s) == None
  {
    if EndsWithBar(s) {
      assert FindBar(s, 0) == |s| - 1;
    }
  }

  // ---------------------------------------------------------------------
  // The builders

  /** The fields of a body, each followed by a delimiter. */
  function Joined(fs: seq<string>): (j: string)
    ensures fs != [] ==> EndsWithBar(j)
  {
    if fs == [] then "" else fs[0] + "|" + Joined(fs[1..])
  }

  /** A message body: the type, a delimiter, then the delimited fields. */
  function Body(msgType: string, fs: seq<string>): string
  {
    msgType + "|" + Joined(fs)
  }

  /** The fields the parser collects from a body holding `fs`, with room for
      `room`: the first `room` of them, except that a final empty field is
      lost, since the loop stops on the last delimiter. */
  function Collected(fs: seq<string>, room: nat): seq<string>
  {
    if fs == [] || room == 0 || fs == [""] then []
    else [fs[0]] + Collected(fs[1..], room - 1)
  }

  /** Collected keeps the first `room` fields, all of them when they fit,
      less a final empty one. */
  lemma {:induction false} CollectedKeeps(fs: seq<string>, room: nat)
    ensures |fs| > room ==> Collected(fs, room) == fs[..room]
    ensures |fs| <= room && fs != [] && fs[|fs| - 1] == "" ==> Collected(fs, room) == fs[..|fs| - 1]
    ensures |fs| <= room && (fs == [] || fs[|fs| - 1] != "") ==> Collected(fs, room) == fs
    decreases |fs|
  {
    if fs != [] && room > 0 && fs != [""] {
      CollectedKeeps(fs[1..], room - 1);
      if |fs| > room {
        assert fs[..room] == [fs[0]] + fs[1..][..room - 1];
      } else if fs[|fs| - 1] == "" {
        assert fs[..|fs| - 1] == [fs[0]] + fs[1..][..|fs| - 2];
      } else {
        assert fs == [fs[0]] + fs[1..];
      }
    }
  }

  /** The field loop over a delimited list of delimiter-free fields
      collects them, as Collected says. */
  lemma {:induction false} FieldsOfJoined(fs: seq<string>, room: nat)
    requires AllBarFree(fs)
    ensures FieldsFrom(Joined(fs), 0, room) == Collected(fs, room)
    decreases |fs|
  {
    if fs == [""] {
      assert Joined(fs) == "|";
    } else if fs != [] && room > 0 {
      TailBarFree(fs);
      FieldsOfJoined(fs[1..], room - 1);
      FieldsOfJoinedStep(fs, room);
    }
  }

  /** The inductive step of FieldsOfJoined: the first field, then the rest. */
  lemma FieldsOfJoinedStep(fs: seq<string>, room: nat)
    requires AllBarFree(fs) && fs != [] && fs != [""] && room > 0
    requires FieldsFrom(Joined(fs[1..]), 0, room - 1) == Collected(fs[1..], room - 1)
    ensures FieldsFrom(Joined(fs), 0, room) == Collected(fs, room)
  {
    JoinedCons(fs);
    FieldsOfCons(fs[0], Joined(fs[1..]), room);
    CollectedCons(fs, room);
  }

  lemma TailBarFree(fs: seq<string>)
    requires AllBarFree(fs) && fs != []
    ensures AllBarFree(fs[1..])
  {
    assert forall k :: 0 <= k < |fs[1..]| ==> fs[1..][k] == fs[k + 1];
  }

  /** The first field of a non-empty list, and the rest still free of
      delimiters. */
  lemma JoinedCons(fs: seq<string>)
    requires AllBarFree(fs) && fs != []
    ensures Joined(fs) == fs[0] + "|" + Joined(fs[1..])
    ensures BarFree(fs[0])
    ensures fs != [""] ==> fs[0] != [] || Joined(fs[1..]) != []
  {
    assert fs == [fs[0]] + fs[1..];
  }

  /** One field taken off the front of Collected. */
  lemma CollectedCons(fs: seq<string>, room: nat)
    requires fs != [] && fs != [""] && room > 0
    ensures Collected(fs, room) == [fs[0]] + Collected(fs[1..], room - 1)
  {
  }

  /** One field taken off the front of a delimited list. */
  lemma FieldsOfCons(w: string, rest: string, room: nat)
    requires BarFree(w) && (rest == [] || EndsWithBar(rest)) && room > 0
    requires w != [] || rest != []
    ensures FieldsFrom(w + "|" + rest, 0, room) == [w] + FieldsFrom(rest, 0, room - 1)
  {
    FieldSplit(w, rest);
    assert (w + "|" + rest)[0..|w|] == w;
    FieldsShifted(w + "|", rest, 0, room - 1);
  }

  /** A delimiter-free field, a delimiter, then the rest: FindBar stops at
      that delimiter, and the two sides are the field and the rest. */
  lemma FieldSplit(w: string, rest: string)
    requires BarFree(w)
    ensures FindBar(w + "|" + rest, 0) == |w|
    ensures (w + "|" + rest)[..|w|] == w && (w + "|" + rest)[|w| + 1..] == rest
  {
    var r := w + "|" + rest;
    assert forall k :: 0 <= k < |w| ==> r[k] == w[k];
    FindBarIsFirst(r, 0, |w|);
  }

  /** What the parser makes of a body with a 4-byte type and delimiter-free
      fields: that type, and the fields as Collected says. */
  lemma BodyParses(msgType: string, fs: seq<string>)
    requires |msgType| == 4
    ensures AllBarFree(fs) ==>
      ParsedAfterLength(Body(msgType, fs)) == Some(Message(msgType, Collected(fs, MaxFields)))
  {
    if AllBarFree(fs) {
      var b := Body(msgType, fs);
      assert b[..4] == msgType;
      assert b[4] == '|';
      assert b == (msgType + "|") + Joined(fs);
      FieldsShifted(msgType + "|", Joined(fs), 0, MaxFields);
      FieldsOfJoined(fs, MaxFields);
    }
  }

  /** The length field and the bytes after it agree: the text between the
      first two delimiters reads, under `strtol`, as the number of bytes
      after the second. */
  ghost predicate LengthHolds(f: string)
  {
    var vsep := FindBar(f, 0);
    vsep < |f| &&
    var lsep := FindBar(f, vsep + 1);
    lsep < |f| && StrtolWhole(f[vsep + 1..lsep]) == Some(|f| - lsep - 1)
  }

  /** `"0|%02d|%s"`: version 0, the body length in at least two digits, then
      the body. The length is right, and the parser sees only the body. */
  function Frame(body: string): (f: string)
    ensures |f| > |body| + 2 && f[..2] == "0|" && f[|f| - |body|..] == body
    ensures LengthHolds(f)
    ensures Parsed(f) == ParsedAfterLength(body)
  {
    var n := Pad2(|body|);
    var f := "0" + "|" + n + "|" + body;
    LengthFieldHolds(n, body, f);
    HeaderIgnored("0", n, body);
    assert f[..2] == "0|";
    assert f[|f| - |body|..] == body;
    f
  }

  /** A header `0|n|` whose numeral `n` counts the body's bytes makes the
      length check hold. */
  lemma LengthFieldHolds(n: string, body: string, f: string)
    requires 1 <= |n| && AllDigits(n) && DecimalValue(n) == |body|
    requires f == "0" + "|" + n + "|" + body
    ensures BarFree(n) && LengthHolds(f)
  {
    HeaderBars(n, body, f);
    StrtolOfNumeral(n);
  }

  /** In `0|n|body` with a numeral `n`, the first two delimiters enclose `n`. */
  lemma HeaderBars(n: string, body: string, f: string)
    requires AllDigits(n)
    requires f == "0" + "|" + n + "|" + body
    ensures BarFree(n)
    ensures FindBar(f, 0) == 1 && FindBar(f, 2) == 2 + |n|
    ensures f[2..2 + |n|] == n && |f| - (2 + |n|) - 1 == |body|
  {
    assert forall k :: 0 <= k < |n| ==> IsDigit(n[k]);
    TwoBars("0", n, body, f);
  }

  /** The first two delimiters of `a|b|rest`, with `a` and `b` free of them,
      are the ones written there, and `b` lies between them. */
  lemma TwoBars(a: string, b: string, rest: string, f: string)
    requires BarFree(a) && BarFree(b)
    requires f == a + "|" + b + "|" + rest
    ensures FindBar(f, 0) == |a| && FindBar(f, |a| + 1) == |a| + 1 + |b|
    ensures f[|a| + 1..|a| + 1 + |b|] == b
  {
    var after := b + ("|" + rest);
    Regroup(a, b, rest);
    assert f[0..] == f;
    BarAfter(f, 0, a, after);
    BarAfter(f, |a| + 1, b, rest);
  }

  lemma Regroup(a: string, b: string, rest: string)
    ensures a + "|" + b + "|" + rest == a + ("|" + (b + ("|" + rest)))
  {
  }

  /** A delimiter-free `w` then a delimiter at offset `i`: FindBar from `i`
      stops right after `w`. */
  lemma BarAfter(f: string, i: nat, w: string, rest: string)
    requires i <= |f| && f[i..] == w + ("|" + rest) && BarFree(w)
    ensures FindBar(f, i) == i + |w| && f[i..i + |w|] == w && f[i + |w| + 1..] == rest
  {
    assert forall k :: i <= k < i + |w| ==> f[k] == f[i..][k - i] == w[k - i];
    assert f[i + |w|] == f[i..][|w|] == '|';
    FindBarIsFirst(f, i, i + |w|);
    assert f[i..i + |w|] == f[i..][..|w|];
    assert f[i + |w| + 1..] == f[i..][|w| + 1..];
  }

  /** ngp_build_wait: the body `WAIT|`, which parses back with no fields. */
  function BuildWait(): (f: string)
    ensures LengthHolds(f)
    ensures Parsed(f) == Some(Message("WAIT", []))
  {
    assert "WAIT|" == Body("WAIT", []);
    BodyParses("WAIT", []);
    CollectedKeeps([], MaxFields);
    Frame("WAIT|")
  }

  /** ngp_build_fail: `FAIL|%d %s|`, the code and the text sharing one field;
      with a delimiter-free text the frame parses back to that field. */
  function BuildFail(code: int, text: string): (f: string)
    ensures LengthHolds(f)
    ensures BarFree(text) ==> Parsed(f) == Some(Message("FAIL", [IntToDecimal(code) + " " + text]))
  {
    FailBodyParses(code, text);
    Frame("FAIL|" + IntToDecimal(code) + " " + text + "|")
  }

  lemma FailBodyParses(code: int, text: string)
    ensures BarFree(text) ==>
      ParsedAfterLength("FAIL|" + IntToDecimal(code) + " " + text + "|")
        == Some(Message("FAIL", [IntToDecimal(code) + " " + text]))
  {
    var field := IntToDecimal(code) + " " + text;
    assert "FAIL|" + IntToDecimal(code) + " " + text + "|" == Body("FAIL", [field]) by {
      assert Joined([field]) == field + "|" + Joined([]);
    }
    BodyParses("FAIL", [field]);
    CollectedKeeps([field], MaxFields);
  }

  /** ngp_build_name: `NAME|%d|%s|`, the player number and the opponent's
      name. An empty name is the final field and is lost on parsing. */
  function BuildName(player: int, opponent: string): (f: string)
    ensures LengthHolds(f)
    ensures BarFree(opponent) && opponent != "" ==>
      Parsed(f) == Some(Message("NAME", [IntToDecimal(player), opponent]))
    ensures BarFree(opponent) && opponent == "" ==>
      Parsed(f) == Some(Message("NAME", [IntToDecimal(player)]))
  {
    TwoFieldBodyParses("NAME|", player, opponent);
    assert "NAME|"[..4] == "NAME";
    Frame("NAME|" + IntToDecimal(player) + "|" + opponent + "|")
  }

  /** ngp_build_play: `PLAY|%d|%s|`, the player to move and the board. */
  function BuildPlay(next: int, board: string): (f: string)
    ensures LengthHolds(f)
    ensures BarFree(board) && board != "" ==>
      Parsed(f) == Some(Message("PLAY", [IntToDecimal(next), board]))
    ensures BarFree(board) && board == "" ==>
      Parsed(f) == Some(Message("PLAY", [IntToDecimal(next)]))
  {
    TwoFieldBodyParses("PLAY|", next, board);
    assert "PLAY|"[..4] == "PLAY";
    Frame("PLAY|" + IntToDecimal(next) + "|" + board + "|")
  }

  /** The layout NAME and PLAY share: the type and its delimiter (`head`),
      a number, then a text. */
  lemma TwoFieldBodyParses(head: string, num: int, text: string)
    requires |head| == 5 && head[4] == '|'
    ensures BarFree(text) && text != "" ==>
      ParsedAfterLength(head + IntToDecimal(num) + "|" + text + "|")
        == Some(Message(head[..4], [IntToDecimal(num), text]))
    ensures BarFree(text) && text == "" ==>
      ParsedAfterLength(head + IntToDecimal(num) + "|" + text + "|")
        == Some(Message(head[..4], [IntToDecimal(num)]))
  {
    var fs := [IntToDecimal(num), text];
    assert head + IntToDecimal(num) + "|" + text + "|" == Body(head[..4], fs) by {
      assert Joined(fs[1..]) == text + "|" + Joined([]);
      assert head == head[..4] + "|";
    }
    BodyParses(head[..4], fs);
    CollectedKeeps(fs, MaxFields);
    assert fs[..1] == [IntToDecimal(num)];
  }

  /** The OVER reason: "Forfeit" exactly when the flag is non-zero. */
  function OverReason(forfeit: int): (reason: string)
    ensures reason == "Forfeit" <==> forfeit != 0
    ensures reason == "" <==> forfeit == 0
  {
    if forfeit != 0 then "Forfeit" else ""
  }

  /** ngp_build_over: `OVER|%d|%s|%s|`, the winner, the board and the reason.
      A normal end has an empty reason, which the parser drops, so it reads
      back with two fields; a forfeit reads back with three. */
  function BuildOver(winner: int, board: string, forfeit: int): (f: string)
    ensures LengthHolds(f)
    ensures BarFree(board) && forfeit == 0 ==>
      Parsed(f) == Some(Message("OVER", [IntToDecimal(winner), board]))
    ensures BarFree(board) && forfeit != 0 ==>
      Parsed(f) == Some(Message("OVER", [IntToDecimal(winner), board, "Forfeit"]))
  {
    OverBodyParses(winner, board, OverReason(forfeit));
    Frame("OVER|" + IntToDecimal(winner) + "|" + board + "|" + OverReason(forfeit) + "|")
  }

  lemma OverBodyParses(winner: int, board: string, reason: string)
    ensures BarFree(board) && reason == "" ==>
      ParsedAfterLength("OVER|" + IntToDecimal(winner) + "|" + board + "|" + reason + "|")
        == Some(Message("OVER", [IntToDecimal(winner), board]))
    ensures BarFree(board) && reason == "Forfeit" ==>
      ParsedAfterLength("OVER|" + IntToDecimal(winner) + "|" + board + "|" + reason + "|")
        == Some(Message("OVER", [IntToDecimal(winner), board, reason]))
  {
    var fs := [IntToDecimal(winner), board, reason];
    assert "OVER|" + IntToDecimal(winner) + "|" + board + "|" + reason + "|" == Body("OVER", fs) by {
      assert Joined(fs[2..]) == reason + "|" + Joined([]);
      assert Joined(fs[1..]) == board + "|" + Joined(fs[2..]);
    }
    if BarFree(board) && (reason == "" || reason == "Forfeit") {
      assert BarFree(reason);
      BodyParses("OVER", fs);
      CollectedKeeps(fs, MaxFields);
      assert fs[..2] == [IntToDecimal(winner), board];
    }
  }
}
