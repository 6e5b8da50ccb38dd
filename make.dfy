/** apub/make.py: routes a build request to the project's outputs. Building
    one output (`Output.make`) is not part of this model; it is an effect
    that the Builder records in a log, and that raises for the outputs in
    its `failing` set. */
module Dispatch {
  import opened Values
  import opened Books
  import opened Outputs
  import opened Projects

  /** One call of `output.make(book, substitutions)`. */
  datatype Build = Build(output: Output, book: Option<Book>, substitutions: seq<Substitution>)

  /** What `make` is asked to build: every output (no argument), a given
      Output object, or the output with a given name. */
  datatype Target = Every | Given(output: Output) | Named(name: string)

  /** The raise of an output's own `make`. */
  const BuildFailure: Error := CollaboratorError("Output.make")

  class Builder {
    /** The builds so far, oldest first. */
    ghost var log: seq<Build>
    /** The outputs whose `make` raises. */
    const failing: set<Output>

    constructor (failing: set<Output>)
      ensures this.failing == failing && log == []
    {
      this.failing := failing;
      log := [];
    }

    /** `output.make(book, substitutions)` */
    method MakeOutput(output: Output, book: Option<Book>, substitutions: seq<Substitution>) returns (r: Outcome)
      modifies this
      ensures log == old(log) + [Build(output, book, substitutions)]
      ensures r == if output in failing then Fail(BuildFailure) else Pass
    {
      log := log + [Build(output, book, substitutions)];
      r := if output in failing then Fail(BuildFailure) else Pass;
    }
  }

  /** The builds of `outputs`, in order, all with the same book and substitutions. */
  function Builds(outputs: seq<Output>, book: Option<Book>, substitutions: seq<Substitution>): (bs: seq<Build>)
    ensures |bs| == |outputs|
    ensures forall i :: 0 <= i < |outputs| ==> bs[i] == Build(outputs[i], book, substitutions)
  {
    seq(|outputs|, i requires 0 <= i < |outputs| => Build(outputs[i], book, substitutions))
  }

  /** The outputs a loop over `outputs` reaches: all of them, or those up to
      and including the first whose build raises. */
  function Attempted(outputs: seq<Output>, failing: set<Output>): (r: seq<Output>)
    ensures |r| <= |outputs| && r == outputs[..|r|]
    ensures forall j :: 0 <= j < |r| - 1 ==> r[j] !in failing
    ensures r != outputs ==> r != [] && r[|r| - 1] in failing
    ensures r == outputs <==> (forall j :: 0 <= j < |outputs| - 1 ==> outputs[j] !in failing)
  {
    if outputs == [] then []
    else if outputs[0] in failing then [outputs[0]]
    else [outputs[0]] + Attempted(outputs[1..], failing)
  }

  /** When every output builds, the loop reaches every output. */
  lemma AttemptedAllWhenNoneFails(outputs: seq<Output>, failing: set<Output>)
    requires forall o | o in outputs :: o !in failing
    ensures Attempted(outputs, failing) == outputs
  {
  }

  /** Once the outputs before `i` build and output `i` raises, the loop stops after `i`. */
  lemma AttemptedStopsAt(outputs: seq<Output>, failing: set<Output>, i: nat)
    requires i < |outputs| && outputs[i] in failing
    requires forall j :: 0 <= j < i ==> outputs[j] !in failing
    ensures Attempted(outputs, failing) == outputs[..i + 1]
  {
  }

  /** `output.name == output_name` */
  predicate HasName(output: Output, name: string)
    reads output
  {
    output.name == JStr(name)
  }

  /** `i` is the position of the first output named `name`. */
  predicate IsFirstNamed(outputs: seq<Output>, i: int, name: string)
    reads set o | o in outputs
  {
    0 <= i < |outputs| && HasName(outputs[i], name)
    && forall j :: 0 <= j < i ==> !HasName(outputs[j], name)
  }

  /** The message of the OutputNotFoundError for `name`. */
  function NotFoundMessage(name: string): (m: string)
    ensures |m| == |NotFoundPrefix| + |name| + 1
    ensures m[|NotFoundPrefix|..|NotFoundPrefix| + |name|] == name
  {
    NotFoundPrefix + name + "'"
  }

  const NotFoundPrefix: string := "No output using the following name could be found: '"

  /** `find_output`: the first output, in list order, named `name`. */
  method FindOutput(outputs: seq<Output>, name: string) returns (r: Result<Output>)
    ensures r.Ok? ==> exists i :: IsFirstNamed(outputs, i, name) && outputs[i] == r.value
    ensures r.Err? <==> forall i :: 0 <= i < |outputs| ==> !HasName(outputs[i], name)
    ensures r.Err? ==> r.error == OutputNotFoundError(NotFoundMessage(name))
  {
    for i := 0 to |outputs|
      invariant forall j :: 0 <= j < i ==> !HasName(outputs[j], name)
    {
      if outputs[i].name == JStr(name) {
        assert IsFirstNamed(outputs, i, name);
        return Ok(outputs[i]);
      }
    }
    r := Err(OutputNotFoundError(NotFoundMessage(name)));
  }

  /** `make_every_output`: builds the project's outputs in list order, each
      with the project's book and substitutions, and stops at the first
      build that raises. */
  method MakeEveryOutput(project: Project, builder: Builder) returns (r: Outcome)
    modifies builder
    ensures builder.log == old(builder.log)
              + Builds(Attempted(project.outputs, builder.failing), project.book, project.substitutions)
    ensures r.Pass? <==> forall o | o in project.outputs :: o !in builder.failing
    ensures r.Fail? ==> r.error == BuildFailure
  {
    var outputs := project.outputs;
    for i := 0 to |outputs|
      invariant builder.log == old(builder.log) + Builds(outputs[..i], project.book, project.substitutions)
      invariant forall j :: 0 <= j < i ==> outputs[j] !in builder.failing
    {
      var outcome := builder.MakeOutput(outputs[i], project.book, project.substitutions);
      assert outputs[..i + 1] == outputs[..i] + [outputs[i]];
      if outcome.Fail? {
        AttemptedStopsAt(outputs, builder.failing, i);
        return outcome;
      }
    }
    assert outputs[..|outputs|] == outputs;
    AttemptedAllWhenNoneFails(outputs, builder.failing);
    r := Pass;
  }

  /** `make(project, output)`. */
  method Make(project: Project, target: Target, builder: Builder) returns (r: Outcome)
    modifies builder
    // no output: every output of the project, in order, once each
    ensures target.Every? ==>
              builder.log == old(builder.log)
                + Builds(Attempted(project.outputs, builder.failing), project.book, project.substitutions)
              && (r.Pass? <==> forall o | o in project.outputs :: o !in builder.failing)
    // an Output object: exactly that object, listed in the project or not
    ensures target.Given? ==>
              builder.log == old(builder.log) + [Build(target.output, project.book, project.substitutions)]
              && (r.Pass? <==> target.output !in builder.failing)
    // a name: the first output carrying it, once
    ensures target.Named? && (exists i :: IsFirstNamed(project.outputs, i, target.name)) ==>
              exists i :: IsFirstNamed(project.outputs, i, target.name)
                && builder.log == old(builder.log) + [Build(project.outputs[i], project.book, project.substitutions)]
                && (r.Pass? <==> project.outputs[i] !in builder.failing)
    // an unknown name: nothing is built
    ensures target.Named? && (forall i :: 0 <= i < |project.outputs| ==> !HasName(project.outputs[i], target.name)) ==>
              builder.log == old(builder.log) && r == Fail(OutputNotFoundError(NotFoundMessage(target.name)))
    ensures r.Fail? ==> r.error == BuildFailure || (target.Named? && r.error == OutputNotFoundError(NotFoundMessage(target.name)))
  {
    match target
    case Every =>
      r := MakeEveryOutput(project, builder);
    case Given(output) =>
      r := builder.MakeOutput(output, project.book, project.substitutions);
    case Named(name) =>
      var found := FindOutput(project.outputs, name);
      if found.Err? {
        return Fail(found.error);
      }
      r := builder.MakeOutput(found.value, project.book, project.substitutions);
  }
}
