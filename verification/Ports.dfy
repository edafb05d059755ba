/** What processors declare about their ports, and flow-graph vertices. */
module Ports {
  datatype Movement = Undefined | OneToOne | Broadcast | ScatterGather

  /** `sorted` tells whether the port asks for values sorted within their group. */
  datatype InputPort = InputPort(movement: Movement, sorted: bool)

  datatype OutputPort = OutputPort(hasKey: bool)

  /** A port of a vertex, or of a logical task. */
  datatype Port = Port(vertex: nat, port: nat)

  /** `sources[j]` are the output ports connected to input port `j`. */
  datatype Vertex = Vertex(inputs: seq<InputPort>, outputs: seq<OutputPort>, sources: seq<seq<Port>>)
}
