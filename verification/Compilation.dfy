/** A whole compilation (src/lang/compiler.c): a source is refused, or it becomes a program that does
    what the source says.
 */
module Compilation {
  import opened Ast
  import opened StackCode
  import opened StackPatch
  import StackCompiler
  import StackProgram
  import Refusal

  // The result of a compilation: no program, exactly for the sources that break a rule, or a program
  // laid out for its source, with the pools it refers to. If its operands fit, it is ready to run.
  method Compile(ss: Stmts) returns (r: Option<Prog>)
    ensures r.None? <==> !ListOk(ss, TOP, [], 0, Pools([], []))
    ensures r.None? <==> !Refusal.Accepted(ss)
    ensures r.Some? ==>
              && ProgramAt(r.value.code, 0, ss, Pools([], [])) && |r.value.code| == SizeProgram(ss)
              && Pools(r.value.consts, r.value.strings) == ListPools(ss, TOP, Pools([], []))
    ensures r.Some? && ListFits(ss, TOP, Pools([], [])) ==> StackProgram.ProgramPlaced(r.value, ss, Pools([], []), 0)
  {
    hide Refusal.Accepted, ListOk, ProgramAt, SizeProgram, ListPools, ListFits, StackProgram.ProgramPlaced;
    var c := new StackCompiler.Compiler();
    c.CompileProgram(ss);
    Refusal.AcceptedIff(ss);
    r := if c.hadError then None else Some(Prog(c.code, c.consts, c.strings));
    if r.Some? && ListFits(ss, TOP, Pools([], [])) {
      StackProgram.CompiledPlaced(r.value, ss);
    }
  }
}
