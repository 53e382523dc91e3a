/** The syntax receiver (DepRosSyntaxContextReciever.cs): it is shown every
    syntax node of the compilation, builds the class data of each type
    declaration, and queues those that declare at least one dependency
    property for `Execute`. */
module Receiver {
  import opened Wrappers
  import opened Syntax
  import opened Owners
  import opened Properties
  import opened Analysis
  import opened Classes
  import opened Generator

  /** What one visit queues: nothing for a node that is not a type
      declaration or for a class without properties, the class otherwise; or
      the exception the class data's constructor throws. */
  function VisitSpec(node: SyntaxNode, prototypeOf: MethodDecl -> HandlerPrototype): Result<seq<ClassSnapshot>> {
    match node
    case OtherNode => Ok([])
    case TypeNode(decl) =>
      var c := ClassOf(decl, prototypeOf);
      if c.Err? then Err(c.error)
      else if |c.value.records| > 0 then Ok([c.value])
      else Ok([])
  }

  /** The queue after visiting `nodes` in turn; the first exception ends the walk. */
  function ReceiveAll(nodes: seq<SyntaxNode>, prototypeOf: MethodDecl -> HandlerPrototype): Result<seq<ClassSnapshot>> {
    if nodes == [] then Ok([])
    else
      var prev := ReceiveAll(nodes[..|nodes| - 1], prototypeOf);
      if prev.Err? then prev
      else
        var v := VisitSpec(nodes[|nodes| - 1], prototypeOf);
        if v.Err? then Err(v.error) else Ok(prev.value + v.value)
  }

  /** A queued class has properties, each owned by it, and its toolkit is never UWP. */
  predicate Queueable(s: ClassSnapshot) {
    |s.records| > 0 && OwnedBy(s.info, s.records) && s.info.toolkit != Uwp
  }

  /** A visit queues at most one class, and only a queueable one. */
  lemma VisitQueuesOne(node: SyntaxNode, prototypeOf: MethodDecl -> HandlerPrototype)
    requires VisitSpec(node, prototypeOf).Ok?
    ensures |VisitSpec(node, prototypeOf).value| <= 1
    ensures forall k :: 0 <= k < |VisitSpec(node, prototypeOf).value| ==> Queueable(VisitSpec(node, prototypeOf).value[k])
    ensures |VisitSpec(node, prototypeOf).value| == 1 <==>
              node.TypeNode? && |ClassOf(node.decl, prototypeOf).value.records| > 0
  {
    if node.TypeNode? {
      ClassOfOwned(node.decl, prototypeOf);
    }
  }

  /** The queue holds at most one class per node, each with properties and
      owning them. */
  lemma {:induction false} ReceivedAreQueueable(nodes: seq<SyntaxNode>, prototypeOf: MethodDecl -> HandlerPrototype)
    requires ReceiveAll(nodes, prototypeOf).Ok?
    ensures |ReceiveAll(nodes, prototypeOf).value| <= |nodes|
    ensures forall k :: 0 <= k < |ReceiveAll(nodes, prototypeOf).value| ==> Queueable(ReceiveAll(nodes, prototypeOf).value[k])
  {
    if nodes != [] {
      var init := nodes[..|nodes| - 1];
      ReceivedAreQueueable(init, prototypeOf);
      VisitQueuesOne(nodes[|nodes| - 1], prototypeOf);
    }
  }

  /** Whatever was queued, `Execute` does not throw on it, and adds one file
      per admitted class. */
  lemma ReceivedNeverFail(nodes: seq<SyntaxNode>, prototypeOf: MethodDecl -> HandlerPrototype)
    requires ReceiveAll(nodes, prototypeOf).Ok?
    ensures ExecuteWith(ReceiveAll(nodes, prototypeOf).value, Outcome).Ok?
    ensures |ExecuteWith(ReceiveAll(nodes, prototypeOf).value, Outcome).value.sources| ==
              AdmittedCount(ReceiveAll(nodes, prototypeOf).value)
  {
    ReceivedAreQueueable(nodes, prototypeOf);
    ExecuteAddsAdmitted(ReceiveAll(nodes, prototypeOf).value);
  }

  class SyntaxContextReceiver {
    /** The classes queued for `Execute`, in the order they were visited. */
    var classesToProceed: seq<ClassData>

    constructor()
      ensures classesToProceed == []
    {
      classesToProceed := [];
    }

    /** Build the class data of a type declaration and queue it when it has
        properties; an exception from the constructor propagates. */
    method OnVisitSyntaxNode(node: SyntaxNode, prototypeOf: MethodDecl -> HandlerPrototype) returns (thrown: Option<Exception>)
      modifies this
      ensures VisitSpec(node, prototypeOf).Err? ==>
                thrown == Some(VisitSpec(node, prototypeOf).error) && classesToProceed == old(classesToProceed)
      ensures VisitSpec(node, prototypeOf).Ok? ==>
                && thrown.None?
                && |classesToProceed| == |old(classesToProceed)| + |VisitSpec(node, prototypeOf).value|
                && classesToProceed[..|old(classesToProceed)|] == old(classesToProceed)
                && forall k :: |old(classesToProceed)| <= k < |classesToProceed| ==>
                     && Snapshot(classesToProceed[k]) == VisitSpec(node, prototypeOf).value[k - |old(classesToProceed)|]
                     && forall p :: p in classesToProceed[k].properties ==> fresh(p)
    {
      thrown := None;
      if node.TypeNode? {
        var classData := NewClassData(node.decl, prototypeOf);
        if classData.Err? {
          return Some(classData.error);
        }
        if |classData.value.properties| > 0 {
          classesToProceed := classesToProceed + [classData.value];
        }
      }
    }
  }
}
