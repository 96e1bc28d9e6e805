/** The staged plugin of pkg/solver/builder/builder.go. */
module Builder {
  import opened Base

  datatype Verdict = Pass | Miss | Error

  /** A built plugin; decode is None for a skip or an error. */
  datatype Plugin<!X, !T> = Plugin(filters: seq<X -> bool>, decode: X -> Option<T>, validators: seq<T -> Verdict>)

  datatype BuildPanic = DecodeMissing | SolveMissing

  class Builder<!X, !T> {
    var filters: seq<X -> bool>
    var decode: Option<X -> Option<T>>
    var validators: seq<T -> Verdict>
    var hasSolve: bool

    constructor ()
      ensures filters == [] && decode == None && validators == [] && !hasSolve
    {
      filters, decode, validators, hasSolve := [], None, [], false;
    }

    /** A nil filter is ignored. */
    method Filter(f: Option<X -> bool>)
      modifies this`filters
      ensures filters == old(filters) + if f.Some? then [f.value] else []
    {
      if f.Some? {
        filters := filters + [f.value];
      }
    }

    method Decode(f: X -> Option<T>)
      modifies this`decode
      ensures decode == Some(f)
    {
      decode := Some(f);
    }

    /** A nil validator is ignored. */
    method Validate(f: Option<T -> Verdict>)
      modifies this`validators
      ensures validators == old(validators) + if f.Some? then [f.value] else []
    {
      if f.Some? {
        validators := validators + [f.value];
      }
    }

    method Solve()
      modifies this`hasSolve
      ensures hasSolve
    {
      hasSolve := true;
    }

    /** Build copies the stages; a missing decode is reported before a missing solve. */
    method Build() returns (r: Result<Plugin<X, T>, BuildPanic>)
      ensures decode == None ==> r == Err(DecodeMissing)
      ensures decode.Some? && !hasSolve ==> r == Err(SolveMissing)
      ensures decode.Some? && hasSolve ==> r == Ok(Plugin(filters, decode.value, validators))
    {
      if decode.None? {
        return Err(DecodeMissing);
      }
      if !hasSolve {
        return Err(SolveMissing);
      }
      r := Ok(Plugin(filters, decode.value, validators));
    }
  }

  /** Stage k of a plugin: filters, then decode, then validators. */
  predicate StagePasses<X, T>(p: Plugin<X, T>, tx: X, k: nat)
  {
    var n := |p.filters|;
    if k < n then p.filters[k](tx)
    else if k == n then p.decode(tx).Some?
    else if k - n - 1 < |p.validators| then p.decode(tx).Some? && p.validators[k - n - 1](p.decode(tx).value) == Pass
    else true
  }

  function StageCount<X, T>(p: Plugin<X, T>): nat { |p.filters| + 1 + |p.validators| }

  /**
   * plugin.Match: an intent comes out iff every stage passes, and it is the decoded one. `ran` counts
   * the stages that were run: all up to and including the first that does not pass.
   */
  method Match<X, T>(p: Plugin<X, T>, tx: X) returns (intent: Option<T>, ran: nat)
    ensures intent.Some? <==> forall k: nat | k < StageCount(p) :: StagePasses(p, tx, k)
    ensures intent == MatchResult(p, tx)
    ensures intent.Some? ==> intent == p.decode(tx) && ran == StageCount(p)
    ensures intent.None? ==> 0 < ran <= StageCount(p) && !StagePasses(p, tx, ran - 1)
    ensures forall k: nat | k + 1 < ran :: StagePasses(p, tx, k)
  {
    ran := 0;
    for i := 0 to |p.filters|
      invariant ran == i
      invariant forall k: nat | k < i :: StagePasses(p, tx, k)
    {
      ran := ran + 1;
      if !p.filters[i](tx) {
        assert !StagePasses(p, tx, i);
        return None, ran;
      }
    }
    var decoded := p.decode(tx);
    ran := ran + 1;
    if decoded.None? {
      assert !StagePasses(p, tx, |p.filters|);
      return None, ran;
    }
    for i := 0 to |p.validators|
      invariant ran == |p.filters| + 1 + i
      invariant forall k: nat | k < |p.filters| + 1 + i :: StagePasses(p, tx, k)
    {
      ran := ran + 1;
      match p.validators[i](decoded.value) {
        case Pass =>
        case Miss =>
          assert !StagePasses(p, tx, |p.filters| + 1 + i);
          return None, ran;
        case Error =>
          assert !StagePasses(p, tx, |p.filters| + 1 + i);
          return None, ran;
      }
    }
    intent := decoded;
  }

  /** The intent that comes out of Match, as a function. */
  ghost function MatchResult<X, T>(p: Plugin<X, T>, tx: X): Option<T>
  {
    if forall k: nat | k < StageCount(p) :: StagePasses(p, tx, k) then p.decode(tx) else None
  }
}
