/** The built topology as the engine reads it: canonical resources and edges, the identity index,
    and the compressed adjacency. */
module Graph {
  import opened Model

  datatype Topology = Topology(resources: seq<Resource>, edges: seq<Edge>, index: map<nat, nat>,
                               offsets: seq<nat>, outgoing: seq<nat>)
  {
    /** The identity index and the edge endpoints agree with the resource table. */
    ghost predicate Indexed() {
      && (forall i :: 0 <= i < |resources| ==> resources[i].id in index && index[resources[i].id] == i)
      && (forall id :: id in index ==> index[id] < |resources| && resources[index[id]].id == id)
      && (forall e :: 0 <= e < |edges| ==> edges[e].source in index && edges[e].target in index)
    }

    /** Row i of the adjacency spans offsets[i] to offsets[i + 1]. */
    ghost predicate Shaped() {
      && |offsets| == |resources| + 1
      && (forall i :: 0 <= i <= |resources| ==> offsets[i] <= |outgoing|)
      && (forall i :: 0 <= i < |resources| ==> offsets[i] <= offsets[i + 1])
    }

    /** Edge indices leaving resource i, in canonical order. */
    function Outs(i: nat): (outs: seq<nat>) {
      if i + 1 < |offsets| && offsets[i] <= offsets[i + 1] <= |outgoing| then outgoing[offsets[i]..offsets[i + 1]]
      else []
    }

    /** Row i holds exactly the edges leaving resource i, each once, in increasing order. */
    ghost predicate RowExact(i: nat)
      requires Indexed()
    {
      && (forall j :: 0 <= j < |Outs(i)| ==> Outs(i)[j] < |edges| && index[edges[Outs(i)[j]].source] == i)
      && (forall j, k :: 0 <= j < k < |Outs(i)| ==> Outs(i)[j] < Outs(i)[k])
      && (forall e :: 0 <= e < |edges| && index[edges[e].source] == i ==> e in Outs(i))
    }

    ghost predicate Valid() {
      && Indexed() && Shaped()
      && |edges| < 0xFFFF_FFFF
      && (forall i :: 0 <= i < |resources| ==> RowExact(i))
    }

    /** Position of a resource, or a position past the table when it is not declared. */
    function IndexOf(id: nat): nat { if id in index then index[id] else |resources| }

    function Target(e: nat): nat
      requires e < |edges|
    {
      IndexOf(edges[e].target)
    }
  }
}
