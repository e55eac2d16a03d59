/** The part of a parsed Python module that the specification validators look
    at.  Parsing itself is outside the model: a parse result is an input. */
module PyAst {

  datatype Stmt =
      /** `def name(params): body`, with the line of the `def`.  `params` are the
          names in `node.args.args` only: positional-only parameters, `*args`,
          keyword-only parameters and `**kwargs` are not counted, and the arity
          checks compare the input count with this list alone. */
    | FunctionDef(name: string, params: seq<string>, body: seq<Stmt>, line: nat)
      /** `import m`. */
    | Import(line: nat)
      /** `from m import x`: no validator has a handler for it. */
    | ImportFrom(line: nat)
      /** Any other node, with the statements nested in it in source order
          (the bodies of `if`, `for`, `while`, `with`, `try`, `class`, `async def`, ...). */
    | Other(children: seq<Stmt>)

  datatype Module = Module(body: seq<Stmt>)

  /** The parts of a `def` that selection looks at. */
  datatype Def = Def(name: string, params: seq<string>, line: nat)

  function DefOf(s: Stmt): Def
    requires s.FunctionDef?
  {
    Def(s.name, s.params, s.line)
  }
}
