// Loading a program (src/st/st_program.cpp): parse, add the standard blocks, bind.

module StProgram {
  import opened Values
  import opened Ast
  import opened BoundUnit
  import Grammar
  import D = Declarations
  import Parser
  import Acceptance
  import L = LibraryText
  import Binder
  import StandardFbs

  // The standard blocks are parsed from their text at every load.
  method ParseStandardBlocks() returns (pous: seq<Pou>)
    ensures pous == StandardFbs.LIBRARY && forall p | p in pous :: PouParsed(p)
  {
    hide *;
    L.LibraryTokens();
    L.LexedMeans(L.LIBRARY_TEXT);
    var parser := new Parser.Parser(L.LIBRARY_TEXT);
    parser.AtStart();
    var library := parser.ParsePouLibrary();
    L.LibraryParses();
    pous := library.value;
  }

  function WithStandardBlocks(unit: CompilationUnit): CompilationUnit {
    unit.(pous := unit.pous + StandardFbs.LIBRARY)
  }

  // Any token sequence is parsed and bound in finite time, and loads exactly when it
  // parses and is accepted with the standard blocks. A program that loads is well
  // bound, is a faithful copy of its source with the standard blocks among its types,
  // and expands no type inside itself.
  method Load(tokens: seq<Grammar.Token>)
    returns (ok: bool, p: Program, ghost e: Env, ghost unit: CompilationUnit, ghost expansion: Binder.Expanded)
    requires tokens != [] && tokens[|tokens| - 1] == Grammar.EndOfFile && forall t | t in tokens :: Parser.NamePlain(t)
    ensures var source := D.ParseUnit(D.NOTHING, tokens);
      && (ok <==> source.Some? && Acceptance.Accepted(WithStandardBlocks(source.value)))
      && (ok ==> unit == WithStandardBlocks(source.value))
    ensures ok ==> |e.names| > 0 && e.names[0] == "System.CycleTime"
    ensures ok ==> |p.types| > 0 && p.types[0] == Time && |p.initials| > 0 && p.initials[0] == VTime(0)
    ensures ok ==> WellBound(p, e) && Bound(p) && Binder.UnitFaithful(unit, p, e, expansion)
    ensures ok ==> Binder.RegistryOf(unit.pous, expansion.registry) && Binder.UnitAcyclic(unit, expansion)
  {
    p, e := Program([], [], [], []), Env([], [], [], [], [], []);
    unit, expansion := CompilationUnit([], [], [], []), Binder.Expanded(map[], {}, map[]);
    var parser := new Parser.Parser(tokens);
    assert parser.Rest() == tokens;
    var parsed := parser.ParseCompilationUnit();
    if parsed.None? { return false, p, e, unit, expansion; }
    var blocks := ParseStandardBlocks();
    var merged := parsed.value.(pous := parsed.value.pous + blocks);
    unit := merged;
    ok, p, e, expansion := Binder.BindCompilationUnit(merged);
  }
}
