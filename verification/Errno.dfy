/** The two maps between error constructors and libuv's codes, and the message cache. */
module ErrorCodes {
  import opened Wrappers

  type Bytes = seq<bv8>

  /** A constructor is its position in the list `init` goes through; `codes` are libuv's values for them. */
  type Errno = nat

  /** The last constructor with the given code. */
  function Last(codes: seq<int>, code: int): (r: Option<Errno>)
    ensures r.None? <==> code !in codes
    ensures r.Some? ==> r.value < |codes| && codes[r.value] == code
                        && forall e :: r.value < e < |codes| ==> codes[e] != code
  {
    var n := |codes| - 1;
    if codes == [] then None
    else if codes[n] == code then Some(n)
    else
      assert codes == codes[..n] + [codes[n]];
      Last(codes[..n], code)
  }

  function OfInt(codes: seq<int>, unknown: Errno, code: int): Errno {
    var r := Last(codes, code);
    if r.Some? then r.value else unknown
  }

  function ToInt(codes: seq<int>, unknown: Errno, e: Errno): int
    requires unknown < |codes| && e < |codes|
  {
    if Last(codes, codes[e]) == Some(e) then codes[e] else codes[unknown]
  }

  /** A constructor whose code comes again later has none of its own. */
  lemma CodeOrUnknown(codes: seq<int>, unknown: Errno, e: Errno)
    requires unknown < |codes| && e < |codes|
    ensures ToInt(codes, unknown, e) == if codes[e] in codes[e + 1..] then codes[unknown] else codes[e]
  {
    assert forall i :: e < i < |codes| ==> codes[e + 1..][i - e - 1] == codes[i];
  }

  predicate Distinct(codes: seq<int>) {
    forall e, e' :: 0 <= e < e' < |codes| ==> codes[e] != codes[e']
  }

  lemma SharedCodeLost(codes: seq<int>, unknown: Errno, e: Errno, e': Errno)
    requires unknown < |codes| && e < e' < |codes| && codes[e] == codes[e']
    ensures OfInt(codes, unknown, ToInt(codes, unknown, e)) != e
  {
    assert Last(codes, codes[e]) != Some(e);
  }

  /** Every constructor survives the way to a code and back exactly when no two share a code. */
  lemma ErrnoRoundTrip(codes: seq<int>, unknown: Errno)
    requires unknown < |codes|
    ensures (forall e: Errno :: e < |codes| ==> OfInt(codes, unknown, ToInt(codes, unknown, e)) == e)
            <==> Distinct(codes)
  {
    if e: Errno, e': Errno :| e < e' < |codes| && codes[e] == codes[e'] {
      SharedCodeLost(codes, unknown, e, e');
    }
  }

  /** A code of libuv survives the way to a constructor and back, whether or not codes are shared. */
  lemma CodeRoundTrip(codes: seq<int>, unknown: Errno, code: int)
    requires unknown < |codes|
    ensures OfInt(codes, unknown, code) < |codes|
    ensures code in codes ==> ToInt(codes, unknown, OfInt(codes, unknown, code)) == code
    ensures code !in codes ==> OfInt(codes, unknown, code) == unknown
  {
  }

  /** Each code leads to the last constructor that has it. */
  ghost predicate Indexed(codes: seq<int>, errors: map<int, Errno>) {
    forall code :: if code in errors then Last(codes, code) == Some(errors[code]) else code !in codes
  }

  /** The constructors that `done` codes lead to, with these codes. */
  ghost predicate Inverted(codes: seq<int>, values: map<Errno, int>, done: seq<int>) {
    && (forall e: Errno :: e in values <==> e < |codes| && Last(codes, codes[e]) == Some(e) && codes[e] in done)
    && (forall e: Errno :: e in values ==> values[e] == codes[e])
  }

  ghost predicate Inverse(codes: seq<int>, values: map<Errno, int>) {
    && (forall e: Errno :: e in values <==> e < |codes| && Last(codes, codes[e]) == Some(e))
    && (forall e: Errno :: e in values ==> values[e] == codes[e])
  }

  lemma IndexedNext(codes: seq<int>, e: Errno, errors: map<int, Errno>)
    requires e < |codes| && Indexed(codes[..e], errors)
    ensures Indexed(codes[..e + 1], errors[codes[e] := e])
  {
    var now, errors' := codes[..e + 1], errors[codes[e] := e];
    assert now[..e] == codes[..e] && now == codes[..e] + [codes[e]];
    forall code ensures if code in errors' then Last(now, code) == Some(errors'[code]) else code !in now {
      assert if code in errors then Last(codes[..e], code) == Some(errors[code]) else code !in codes[..e];
    }
  }

  lemma InvertedNext(codes: seq<int>, errors: map<int, Errno>, values: map<Errno, int>, done: seq<int>, code: int)
    requires Indexed(codes, errors) && Inverted(codes, values, done) && code in errors
    ensures Inverted(codes, values[errors[code] := code], done + [code])
  {
    assert Last(codes, code) == Some(errors[code]);
  }

  lemma AllInverted(codes: seq<int>, errors: map<int, Errno>, values: map<Errno, int>, order: seq<int>)
    requires Indexed(codes, errors) && Inverted(codes, values, order)
    requires forall code :: code in order <==> code in errors
    ensures Inverse(codes, values)
  {
    forall e: Errno | e < |codes| ensures codes[e] in order {
      assert Last(codes, codes[e]).Some?;
    }
  }

  /** The first part of `init`: a later constructor replaces an earlier one with the same code, in its place. */
  method Index(codes: seq<int>) returns (errors: map<int, Errno>, order: seq<int>)
    ensures Indexed(codes, errors)
    ensures forall code :: code in order <==> code in errors
  {
    errors, order := map[], [];
    for e := 0 to |codes|
      invariant Indexed(codes[..e], errors)
      invariant forall code :: code in order <==> code in errors
    {
      IndexedNext(codes, e, errors);
      if codes[e] !in errors {
        order := order + [codes[e]];
      }
      errors := errors[codes[e] := e];
    }
    assert codes[..|codes|] == codes;
  }

  /** The second part: the map is turned around, entry by entry in the order of insertion. */
  method Invert(ghost codes: seq<int>, errors: map<int, Errno>, order: seq<int>) returns (values: map<Errno, int>)
    requires Indexed(codes, errors) && forall code :: code in order <==> code in errors
    ensures Inverse(codes, values)
  {
    hide Indexed;
    values := map[];
    for i := 0 to |order|
      invariant Inverted(codes, values, order[..i])
    {
      InvertedNext(codes, errors, values, order[..i], order[i]);
      assert order[..i + 1] == order[..i] + [order[i]];
      values := values[errors[order[i]] := order[i]];
    }
    assert order[..|order|] == order;
    AllInverted(codes, errors, values, order);
  }

  class Table {
    const codes: seq<int>
    const unknown: Errno
    const strerror: int -> Bytes
    var errors: map<int, Errno>
    var values: map<Errno, int>
    var messages: map<Errno, Bytes>

    ghost predicate Valid()
      reads this
    {
      && unknown < |codes| && Indexed(codes, errors) && Inverse(codes, values)
      && (forall e: Errno :: e in messages ==> e < |codes| && messages[e] == strerror(ToInt(codes, unknown, e)))
    }

    constructor (codes: seq<int>, unknown: Errno, strerror: int -> Bytes)
      requires unknown < |codes|
      ensures Valid() && this.codes == codes && this.unknown == unknown && this.strerror == strerror
    {
      hide Indexed, Inverse;
      this.codes, this.unknown, this.strerror := codes, unknown, strerror;
      messages := map[];
      var index, order := Index(codes);
      var inverse := Invert(codes, index, order);
      errors, values := index, inverse;
    }

    method FromInt(code: int) returns (e: Errno)
      requires Valid()
      ensures e == OfInt(codes, unknown, code)
      ensures code in codes ==>
                e < |codes| && codes[e] == code && forall later :: e < later < |codes| ==> codes[later] != code
      ensures code !in codes ==> e == unknown
    {
      if code !in errors {
        return unknown;
      }
      return errors[code];
    }

    method Code(e: Errno) returns (code: int)
      requires Valid() && e < |codes|
      ensures code == ToInt(codes, unknown, e)
      ensures code == if codes[e] in codes[e + 1..] then codes[unknown] else codes[e]
    {
      CodeOrUnknown(codes, unknown, e);
      if e !in values {
        return codes[unknown];
      }
      return values[e];
    }

    /** The cached message is the one `strerror` gives, in whatever order errors are shown. */
    method ToBytes(e: Errno) returns (message: Bytes)
      requires Valid() && e < |codes|
      modifies this`messages
      ensures Valid() && message == strerror(if codes[e] in codes[e + 1..] then codes[unknown] else codes[e])
    {
      CodeOrUnknown(codes, unknown, e);
      if e in messages {
        return messages[e];
      }
      var code := Code(e);
      message := strerror(code);
      messages := messages[e := message];
    }
  }
}
