/** The arguments of a process as one byte string: a count, then each argument after its length.

Arguments are byte strings here.  Which of them are well-formed UTF-8 is a parameter; on those, text and
bytes determine each other, and a text contains the NUL character exactly if its bytes contain zero.
 */
module ProcessWire {
  import opened Containers
  import opened Bytes

  type Utf8 = seq<byte> -> bool

  // ----- Writing -----

  function ArgsBytes(args: List<seq<byte>>): seq<byte> {
    if args.Nil? then [] else (Le(|args.head| % B32, 4) + args.head) + ArgsBytes(args.tail)
  }

  function Encode(args: List<seq<byte>>): seq<byte> { Le(Length(args) % B32, 4) + ArgsBytes(args) }

  // ----- Reading -----

  predicate Acceptable(utf8: Utf8, argument: seq<byte>) { utf8(argument) && 0 !in argument }

  function ReadLength(m: seq<byte>, at: nat): Option<nat>
    requires at <= |m|
  {
    if |m| - at < 4 then None else Some(Uint(m, at, 4))
  }

  /** Reads `count` arguments, after which nothing may be left. */
  function ReadArgs(utf8: Utf8, m: seq<byte>, at: nat, count: nat): Option<List<seq<byte>>>
    requires at <= |m|
    decreases count
  {
    if count == 0 then if at == |m| then Some(Nil) else None
    else
      match ReadLength(m, at)
      case None => None
      case Some(size) =>
        if size > |m| - (at + 4) then None
        else
          var argument := Slice(m, at + 4, size);
          if !Acceptable(utf8, argument) then None
          else
            match ReadArgs(utf8, m, at + 4 + size, count - 1)
            case None => None
            case Some(args) => Some(Cons(argument, args))
  }

  function Split(utf8: Utf8, m: seq<byte>): Option<List<seq<byte>>> {
    match ReadLength(m, 0)
    case None => None
    case Some(count) => if count > (|m| - 4) / 4 then None else ReadArgs(utf8, m, 4, count)
  }

  // ----- A bijection -----

  /** Argument lists that can be passed: their lengths fit 32 bits and their arguments are acceptable. */
  predicate ArgsOk(utf8: Utf8, args: List<seq<byte>>) {
    args.Nil? || (|args.head| < B32 && Acceptable(utf8, args.head) && ArgsOk(utf8, args.tail))
  }

  lemma {:induction false} ArgThen(m: seq<byte>, at: nat, arg: seq<byte>, rest: seq<byte>, size: nat)
    requires At(m, at, (Le(size, 4) + arg) + rest) && size == |arg| < B32
    ensures at + 4 + |arg| + |rest| <= |m|
    ensures ReadLength(m, at) == Some(|arg|) && Slice(m, at + 4, |arg|) == arg && At(m, at + 4 + |arg|, rest)
  {
    WordPower();
    AtSplit(m, at, Le(size, 4) + arg, rest);
    AtSplit(m, at, Le(size, 4), arg);
    UintReads(m, at, size, 4);
    SliceIs(m, at + 4, arg);
  }

  lemma {:induction false} ArgNext(m: seq<byte>, at: nat, arg: seq<byte>, rest: seq<byte>) returns (next: nat)
    requires At(m, at, (Le(|arg| % B32, 4) + arg) + rest) && |arg| < B32
    ensures next == at + 4 + |arg| <= |m| && At(m, next, rest)
    ensures next + |rest| == at + |(Le(|arg| % B32, 4) + arg) + rest|
    ensures ReadLength(m, at) == Some(|arg|) && Slice(m, at + 4, |arg|) == arg
  {
    assert |arg| % B32 == |arg|;
    ArgThen(m, at, arg, rest, |arg|);
    next := at + 4 + |arg|;
  }

  lemma {:induction false} ArgsRead(utf8: Utf8, m: seq<byte>, at: nat, args: List<seq<byte>>)
    requires ArgsOk(utf8, args) && At(m, at, ArgsBytes(args)) && at + |ArgsBytes(args)| == |m|
    ensures ReadArgs(utf8, m, at, Length(args)) == Some(args)
    decreases args
  {
    if args.Cons? {
      var next := ArgNext(m, at, args.head, ArgsBytes(args.tail));
      ArgsRead(utf8, m, next, args.tail);
    }
  }

  lemma {:induction false} EachTakesFour(args: List<seq<byte>>)
    ensures |ArgsBytes(args)| >= 4 * Length(args)
  {
    if args.Cons? {
      EachTakesFour(args.tail);
    }
  }

  lemma {:induction false} CountReads(m: seq<byte>, n: nat, body: seq<byte>)
    requires m == Le(n, 4) + body && n < B32
    ensures Uint(m, 0, 4) == n && At(m, 4, body) && |m| == 4 + |body|
  {
    assert At(m, 0, m);
    AtSplit(m, 0, Le(n, 4), body);
    WordPower();
    UintReads(m, 0, n, 4);
  }

  lemma {:induction false} CountStands(m: seq<byte>, n: nat, body: seq<byte>)
    requires At(m, 4, body) && |m| == 4 + |body| && n == Uint(m, 0, 4)
    ensures m == Le(n, 4) + body && n < B32
  {
    WordPower();
    LeOfUint(m, 0, 4);
    AtJoin(m, 0, Le(n, 4), body);
    AtWhole(m, Le(n, 4) + body);
  }

  /** Every list of acceptable arguments is recovered. */
  lemma {:induction false} SplitInvertsEncode(utf8: Utf8, args: List<seq<byte>>)
    requires ArgsOk(utf8, args) && Length(args) < B32
    ensures Split(utf8, Encode(args)) == Some(args)
  {
    var m, n := Encode(args), Length(args);
    assert n % B32 == n;
    CountReads(m, n, ArgsBytes(args));
    EachTakesFour(args);
    ArgsRead(utf8, m, 4, args);
  }

  lemma {:induction false} ArgStands(m: seq<byte>, at: nat, size: nat, rest: seq<byte>)
    requires at + 4 + size <= |m| && Uint(m, at, 4) == size && At(m, at + 4 + size, rest)
    ensures At(m, at, (Le(size, 4) + Slice(m, at + 4, size)) + rest)
  {
    LeOfUint(m, at, 4);
    SliceStands(m, at + 4, size);
    AtJoin(m, at, Le(size, 4), Slice(m, at + 4, size));
    AtJoin(m, at, Le(size, 4) + Slice(m, at + 4, size), rest);
  }

  /** `args` are the `count` arguments that fill `m` from `at` on. */
  ghost predicate Stand(utf8: Utf8, m: seq<byte>, at: nat, count: nat, args: List<seq<byte>>) {
    ArgsOk(utf8, args) && Length(args) == count && At(m, at, ArgsBytes(args)) && at + |ArgsBytes(args)| == |m|
  }

  lemma {:induction false} StandNext(utf8: Utf8, m: seq<byte>, at: nat, size: nat, count: nat, args: List<seq<byte>>)
    requires at + 4 + size <= |m| && Uint(m, at, 4) == size && Acceptable(utf8, Slice(m, at + 4, size))
    requires Stand(utf8, m, at + 4 + size, count, args)
    ensures Stand(utf8, m, at, count + 1, Cons(Slice(m, at + 4, size), args))
  {
    WordPower();
    ArgStands(m, at, size, ArgsBytes(args));
    assert size % B32 == size;
  }

  lemma {:induction false} ArgsStand(utf8: Utf8, m: seq<byte>, at: nat, count: nat)
    requires at <= |m| && ReadArgs(utf8, m, at, count).Some?
    ensures Stand(utf8, m, at, count, ReadArgs(utf8, m, at, count).value)
    decreases count
  {
    if count > 0 {
      var size := ReadLength(m, at).value;
      ArgsStand(utf8, m, at + 4 + size, count - 1);
      StandNext(utf8, m, at, size, count - 1, ReadArgs(utf8, m, at + 4 + size, count - 1).value);
    }
  }

  /** Every byte string that is accepted is the encoding of the acceptable arguments it yields. */
  lemma {:induction false} EncodeInvertsSplit(utf8: Utf8, m: seq<byte>)
    requires Split(utf8, m).Some?
    ensures var args := Split(utf8, m).value;
            ArgsOk(utf8, args) && Length(args) < B32 && Encode(args) == m
  {
    var count := ReadLength(m, 0).value;
    ArgsStand(utf8, m, 4, count);
    StandIsEncoding(utf8, m, count, Split(utf8, m).value);
  }

  lemma {:induction false} StandIsEncoding(utf8: Utf8, m: seq<byte>, count: nat, args: List<seq<byte>>)
    requires Stand(utf8, m, 4, count, args) && count == Uint(m, 0, 4)
    ensures ArgsOk(utf8, args) && Length(args) < B32 && Encode(args) == m
  {
    CountStands(m, count, ArgsBytes(args));
    assert count % B32 == count;
  }

  // ----- The two procedures -----

  /** The bytes of the arguments before number `i`. */
  function Before(args: seq<seq<byte>>, i: nat): (r: seq<byte>)
    requires i <= |args|
  {
    if i == 0 then [] else Before(args, i - 1) + (Le(|args[i - 1]| % B32, 4) + args[i - 1])
  }

  function ToList(args: seq<seq<byte>>, i: nat): (r: List<seq<byte>>)
    requires i <= |args|
    ensures Length(r) == |args| - i
    decreases |args| - i
  {
    if i == |args| then Nil else Cons(args[i], ToList(args, i + 1))
  }

  lemma {:induction false} BeforeAndAfter(args: seq<seq<byte>>, i: nat)
    requires i <= |args|
    ensures Before(args, i) + ArgsBytes(ToList(args, i)) == Before(args, |args|)
    decreases |args| - i
  {
    if i == |args| {
      assert Before(args, i) + [] == Before(args, i);
    } else {
      BeforeAndAfter(args, i + 1);
      Regroup(Before(args, i), Le(|args[i]| % B32, 4) + args[i], ArgsBytes(ToList(args, i + 1)));
    }
  }

  lemma {:induction false} BeforeGrows(args: seq<seq<byte>>, i: nat)
    requires i <= |args|
    ensures |Before(args, i)| <= |Before(args, |args|)|
    decreases |args| - i
  {
    if i < |args| {
      BeforeGrows(args, i + 1);
    }
  }

  method WireSize(args: seq<seq<byte>>) returns (size: nat)
    ensures size == 4 + |Before(args, |args|)|
  {
    size := 4;
    for i := 0 to |args|
      invariant size == 4 + |Before(args, i)|
    {
      size := size + 4 + |args[i]|;
    }
  }

  /** Writing one more argument after `done`. */
  lemma {:induction false} OneMore(blank: seq<byte>, done: seq<byte>, length: seq<byte>, arg: seq<byte>)
    requires |done| + |length| + |arg| <= |blank|
    ensures Put(Put(Put(blank, 0, done), |done|, length), |done| + |length|, arg) == Put(blank, 0, done + (length + arg))
  {
    PutPut(blank, 0, done, length);
    PutPut(blank, 0, done + length, arg);
    Regroup(done, length, arg);
  }

  lemma {:induction false} PutWhole(blank: seq<byte>, part: seq<byte>)
    requires |part| == |blank|
    ensures Put(blank, 0, part) == part
  {
  }

  method EncodeProcessArgs(args: seq<seq<byte>>) returns (wire: seq<byte>)
    ensures wire == Encode(ToList(args, 0))
  {
    var size := WireSize(args);
    wire := seq(size, _ => 0);
    ghost var blank: seq<byte>, head := wire, Le(|args| % B32, 4);
    wire := Put(wire, 0, Le(|args| % B32, 4));
    assert head + Before(args, 0) == head;
    var position := 4;
    for i := 0 to |args|
      invariant |wire| == size && position == 4 + |Before(args, i)| <= size
      invariant wire == Put(blank, 0, head + Before(args, i))
    {
      BeforeGrows(args, i + 1);
      OneMore(blank, head + Before(args, i), Le(|args[i]| % B32, 4), args[i]);
      Regroup(head, Before(args, i), Le(|args[i]| % B32, 4) + args[i]);
      wire := Put(wire, position, Le(|args[i]| % B32, 4));
      position := position + 4;
      wire := Put(wire, position, args[i]);
      position := position + |args[i]|;
    }
    BeforeAndAfter(args, 0);
    assert Before(args, 0) + ArgsBytes(ToList(args, 0)) == ArgsBytes(ToList(args, 0));
    PutWhole(blank, head + Before(args, |args|));
  }

  /** The arguments already read, followed by the rest. */
  function Follow(done: seq<seq<byte>>, rest: Option<List<seq<byte>>>): Option<List<seq<byte>>> {
    if rest.None? then None else Some(Prepend(done, rest.value))
  }

  function Prepend(done: seq<seq<byte>>, rest: List<seq<byte>>): List<seq<byte>> {
    if done == [] then rest else Prepend(done[..|done| - 1], Cons(done[|done| - 1], rest))
  }

  lemma {:induction false} PrependIsToList(args: seq<seq<byte>>, i: nat)
    requires i <= |args|
    ensures Prepend(args[..i], ToList(args, i)) == ToList(args, 0)
    decreases i
  {
    if i > 0 {
      assert args[..i][..i - 1] == args[..i - 1];
      PrependIsToList(args, i - 1);
    }
  }

  method SplitProcessArgs(utf8: Utf8, input: seq<byte>) returns (r: Option<seq<seq<byte>>>)
    ensures Split(utf8, input) == if r.Some? then Some(ToList(r.value, 0)) else None
  {
    var n := ReadLength(input, 0);
    if n.None? || n.value > (|input| - 4) / 4 {
      return None;
    }
    var args, position: nat := [], 4;
    for i := 0 to n.value
      invariant position <= |input|
      invariant Follow(args, ReadArgs(utf8, input, position, n.value - i)) == Split(utf8, input)
    {
      var size := ReadLength(input, position);
      if size.None? || size.value > |input| - (position + 4) {
        return None;
      }
      var argument := Slice(input, position + 4, size.value);
      if !utf8(argument) || 0 in argument {
        return None;
      }
      assert (args + [argument])[..|args|] == args;
      args, position := args + [argument], position + 4 + size.value;
    }
    PrependIsToList(args, |args|);
    assert args[..|args|] == args;
    return if position == |input| then Some(args) else None;
  }
}
