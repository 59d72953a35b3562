/** Shared vocabulary of the model: optional values, results, and the Ruby
    exceptions the encoder and the EQ controller can raise. */
module Common {

  datatype Option<+T> = None | Some(value: T)

  /** The outcome of a Ruby call: a value, or the exception it raised. */
  datatype Result<+T> = Success(value: T) | Failure(error: Error)

  /** Each constructor stands for one exception the source can raise. */
  datatype Error =
    | InvalidMessageId(id: int)   // RuntimeError "Invalid message ID …"
    | AddressRequired             // RuntimeError "Address is required"
    | SvIdRequired                // RuntimeError "SV ID is required"
    | NilToInteger                // TypeError: `pack` of nil with an integer directive
    | KeyNotFound                 // KeyError from Hash#fetch
    | UndefinedMethod             // NoMethodError (nil - 1, nil * 10000, true.to_i, nil >= 6, …)
    | NotFloatConvertible         // TypeError from Math.log10 of a non-number
    | MathDomain                  // Math::DomainError / FloatDomainError from log10 of x <= 0
    | ComparisonFailed            // ArgumentError: comparison of Symbol with 6 failed
    | InvalidParameter            // RuntimeError "Invalid parameter …"

  /** Runs a sequence of calls that each may raise, in order, the way a Ruby
      array literal of calls evaluates: the first exception propagates and
      the later calls never happen. */
  function Collect<T>(rs: seq<Result<T>>): Result<seq<T>>
  {
    if rs == [] then Success([])
    else match rs[0]
      case Failure(e) => Failure(e)
      case Success(x) =>
        match Collect(rs[1..])
        case Failure(e) => Failure(e)
        case Success(xs) => Success([x] + xs)
  }

  /** The results of the calls that completed before the first exception. */
  function Delivered<T>(rs: seq<Result<T>>): seq<T>
  {
    if rs == [] || rs[0].Failure? then [] else [rs[0].value] + Delivered(rs[1..])
  }

  /** When every call succeeds, all their results are delivered, in order. */
  lemma {:induction false} CollectAllSucceed<T>(rs: seq<Result<T>>)
    requires forall j :: 0 <= j < |rs| ==> rs[j].Success?
    ensures Collect(rs) == Success(Delivered(rs))
    ensures |Delivered(rs)| == |rs|
    ensures forall j :: 0 <= j < |rs| ==> Delivered(rs)[j] == rs[j].value
  {
    if rs != [] {
      CollectAllSucceed(rs[1..]);
    }
  }

  /** Collect succeeds only when every call does. */
  lemma {:induction false} CollectSucceeds<T>(rs: seq<Result<T>>)
    requires Collect(rs).Success?
    ensures forall j :: 0 <= j < |rs| ==> rs[j].Success?
  {
    if rs != [] {
      CollectSucceeds(rs[1..]);
      forall j | 0 <= j < |rs|
        ensures rs[j].Success?
      {
        if j > 0 {
          assert rs[j] == rs[1..][j - 1];
        }
      }
    }
  }

  /** When call `k` is the first to fail, its exception is the outcome and
      exactly the `k` earlier results were delivered. */
  lemma {:induction false} CollectFirstFailure<T>(rs: seq<Result<T>>, k: nat)
    requires k < |rs| && rs[k].Failure?
    requires forall j :: 0 <= j < k ==> rs[j].Success?
    ensures Collect(rs) == Failure(rs[k].error)
    ensures Delivered(rs) == Delivered(rs[..k])
    ensures |Delivered(rs)| == k
    ensures forall j :: 0 <= j < k ==> Delivered(rs)[j] == rs[j].value
  {
    if k > 0 {
      CollectFirstFailure(rs[1..], k - 1);
      assert rs[..k][1..] == rs[1..][..k - 1];
    }
  }

  /** Concatenation is associative. */
  lemma SeqAssoc<T>(x: seq<T>, y: seq<T>, z: seq<T>)
    ensures x + (y + z) == x + y + z
  {
  }

  /** The first `k` calls all returned, giving `sent`. */
  ghost predicate Ran<T>(rs: seq<Result<T>>, k: nat, sent: seq<T>)
  {
    k <= |rs| && |sent| == k &&
    (k == 0 || (Ran(rs, k - 1, sent[..k - 1]) && rs[k - 1].Success? && rs[k - 1].value == sent[k - 1]))
  }

  /** One more call returned `m`. */
  lemma RanStep<T>(rs: seq<Result<T>>, k: nat, sent: seq<T>, m: Result<T>)
    requires Ran(rs, k, sent) && k < |rs| && rs[k] == m && m.Success?
    ensures Ran(rs, k + 1, sent + [m.value])
  {
    assert (sent + [m.value])[..k] == sent;
  }

  /** What Ran says call by call. */
  lemma {:induction false} RanEach<T>(rs: seq<Result<T>>, k: nat, sent: seq<T>)
    requires Ran(rs, k, sent)
    ensures k <= |rs| && |sent| == k
    ensures forall j :: 0 <= j < k ==> rs[j].Success? && rs[j].value == sent[j]
  {
    if k > 0 {
      RanEach(rs, k - 1, sent[..k - 1]);
    }
  }

  /** Call `k` raised after the calls before it returned `sent`: the whole
      sequence raises that exception and delivered exactly `sent`. */
  lemma Halted<T>(rs: seq<Result<T>>, k: nat, sent: seq<T>)
    requires Ran(rs, k, sent) && k < |rs| && rs[k].Failure?
    ensures Collect(rs) == Failure(rs[k].error) && Delivered(rs) == sent
  {
    RanEach(rs, k, sent);
    CollectFirstFailure(rs, k);
  }

  /** Every call returned, giving `sent`: the sequence delivers all of it. */
  lemma Finished<T>(rs: seq<Result<T>>, sent: seq<T>)
    requires Ran(rs, |rs|, sent)
    ensures Collect(rs) == Success(sent) && Delivered(rs) == sent
  {
    RanEach(rs, |rs|, sent);
    CollectAllSucceed(rs);
    assert Delivered(rs) == sent by {
      assert forall j :: 0 <= j < |rs| ==> Delivered(rs)[j] == rs[j].value == sent[j];
    }
  }
}
