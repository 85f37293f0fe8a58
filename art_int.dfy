/**
 * The neural network crate `art-int` (art-int/src/lib.rs, neuron.rs,
 * layer.rs, layer_topology.rs).
 *
 * A `Network` is a list of layers, a `Layer` a list of neurons with an
 * activation function, and a `Neuron` a bias and a weight list.  The
 * genetic algorithm flattens a network into one weight sequence
 * (`weights()`: per layer, per neuron, the bias and then the weights) and
 * rebuilds it from such a sequence (`from_weights`), which pulls values
 * from a shared iterator.  The iterator is the class `WeightIter`; the
 * rebuilding methods are proved against the pure decoders `DecodeNeuron`,
 * `DecodeLayer` and `DecodeNetwork`.  Weight values are opaque `real`s:
 * f32 rounding is not modelled.  A Rust panic is the `Panic` outcome.
 */
module ArtInt {
  import opened Wrappers

  datatype ActivationFunc = ReLu | SoftMax

  datatype Neuron = Neuron(bias: real, weights: seq<real>)

  datatype Layer = Layer(neurons: seq<Neuron>, activation: ActivationFunc)

  datatype Network = Network(layers: seq<Layer>)

  /** One entry of the topology: the size of a layer and its activation. */
  datatype LayerTopology = LayerTopology(neurons: nat, activation: ActivationFunc)

  /** A computation that either yields a value or panics. */
  datatype Checked<T> = Ok(value: T) | Panic

  /** `LayerTopology::new`: the activation defaults to ReLu. */
  function NewTopology(neurons: nat): (r: LayerTopology)
    ensures r.neurons == neurons && r.activation == ReLu
  {
    LayerTopology(neurons, ReLu)
  }

  // ---------------------------------------------------------------------
  // Constructors and their assertions
  // ---------------------------------------------------------------------

  /** `Neuron::new` asserts that the weight list is not empty. */
  function NewNeuron(bias: real, weights: seq<real>): (r: Checked<Neuron>)
    ensures r.Ok? <==> weights != []
    ensures r.Ok? ==> r.value.bias == bias && r.value.weights == weights
  {
    if weights == [] then Panic else Ok(Neuron(bias, weights))
  }

  /** All neurons have as many weights as the first one. */
  predicate SameWidth(neurons: seq<Neuron>)
  {
    forall k :: 0 <= k < |neurons| ==> |neurons[k].weights| == |neurons[0].weights|
  }

  /** `Layer::new` asserts a non-empty neuron list unless the activation is
    * SoftMax, and equal weight counts. */
  function NewLayer(neurons: seq<Neuron>, activation: ActivationFunc): (r: Checked<Layer>)
    ensures r.Ok? <==> (activation == SoftMax || neurons != []) && SameWidth(neurons)
    ensures r.Ok? ==> r.value.neurons == neurons && r.value.activation == activation
  {
    if activation != SoftMax && neurons == [] then Panic
    else if !SameWidth(neurons) then Panic
    else Ok(Layer(neurons, activation))
  }

  // ---------------------------------------------------------------------
  // Flattening: `weights()`
  // ---------------------------------------------------------------------

  /** The values of one neuron in flattened order: bias first. */
  function NeuronWeights(n: Neuron): seq<real>
  {
    [n.bias] + n.weights
  }

  function NeuronsWeights(neurons: seq<Neuron>): seq<real>
  {
    if neurons == [] then [] else NeuronWeights(neurons[0]) + NeuronsWeights(neurons[1..])
  }

  function LayersWeights(layers: seq<Layer>): seq<real>
  {
    if layers == [] then [] else NeuronsWeights(layers[0].neurons) + LayersWeights(layers[1..])
  }

  /** `Network::weights`: per layer, per neuron, the bias then the weights. */
  function Weights(net: Network): (r: seq<real>)
    ensures net.layers != [] ==> NeuronsWeights(net.layers[0].neurons) <= r
    ensures net.layers != [] && net.layers[0].neurons != [] ==> r[0] == net.layers[0].neurons[0].bias
  {
    LayersWeights(net.layers)
  }

  // ---------------------------------------------------------------------
  // Shapes
  // ---------------------------------------------------------------------

  /** Every neuron has `width` weights and there are `count` of them. */
  predicate NeuronsShaped(neurons: seq<Neuron>, width: nat, count: nat)
  {
    |neurons| == count && forall k :: 0 <= k < |neurons| ==> |neurons[k].weights| == width
  }

  /** The layers are those of `topology`: the first layer has
    * `topology[1].neurons` neurons of `topology[0].neurons` weights each
    * and the activation of `topology[1]`, and so on, one layer per window
    * of two entries. */
  predicate Fits(layers: seq<Layer>, topology: seq<LayerTopology>)
    decreases |layers|
  {
    |topology| == |layers| + 1 &&
    (layers != [] ==>
      NeuronsShaped(layers[0].neurons, topology[0].neurons, topology[1].neurons) &&
      layers[0].activation == topology[1].activation &&
      Fits(layers[1..], topology[1..]))
  }

  /** The number of values a layer of `count` neurons of `width` weights takes. */
  function LayerCount(width: nat, count: nat): (r: nat)
    ensures r == count * (width + 1)
  {
    if count == 0 then 0 else width + 1 + LayerCount(width, count - 1)
  }

  /** The number of values `from_weights` consumes for `topology`. */
  function WeightCount(topology: seq<LayerTopology>): nat
    decreases |topology|
  {
    if |topology| < 2 then 0
    else LayerCount(topology[0].neurons, topology[1].neurons) + WeightCount(topology[1..])
  }

  /** A layer passes `Neuron::new` and `Layer::new`: a layer with neurons
    * needs inputs, an empty one must be SoftMax. */
  predicate LayerBuildable(width: nat, count: nat, activation: ActivationFunc)
  {
    if count == 0 then activation == SoftMax else width >= 1
  }

  /** Every window of two topology entries gives a buildable layer. */
  predicate LayersBuildable(topology: seq<LayerTopology>)
    decreases |topology|
  {
    |topology| >= 2 ==>
      LayerBuildable(topology[0].neurons, topology[1].neurons, topology[1].activation) &&
      LayersBuildable(topology[1..])
  }

  /** `from_weights` accepts at least two topology entries and then builds
    * every layer. */
  predicate Buildable(topology: seq<LayerTopology>)
  {
    |topology| >= 2 && LayersBuildable(topology)
  }

  lemma {:induction false} NeuronsWeightsLength(neurons: seq<Neuron>, width: nat, count: nat)
    requires NeuronsShaped(neurons, width, count)
    ensures |NeuronsWeights(neurons)| == LayerCount(width, count)
  {
    if neurons != [] {
      NeuronsWeightsLength(neurons[1..], width, count - 1);
    }
  }

  /** A network of the topology's shape has exactly `WeightCount` values. */
  lemma {:induction false} WeightsLength(layers: seq<Layer>, topology: seq<LayerTopology>)
    requires Fits(layers, topology)
    ensures |LayersWeights(layers)| == WeightCount(topology)
    decreases |layers|
  {
    if layers != [] {
      NeuronsWeightsLength(layers[0].neurons, topology[0].neurons, topology[1].neurons);
      WeightsLength(layers[1..], topology[1..]);
    }
  }

  /** Layer `k` of a fitting network, stated by index. */
  lemma {:induction false} FitsAt(layers: seq<Layer>, topology: seq<LayerTopology>, k: nat)
    requires Fits(layers, topology) && k < |layers|
    ensures NeuronsShaped(layers[k].neurons, topology[k].neurons, topology[k + 1].neurons)
    ensures layers[k].activation == topology[k + 1].activation
    decreases k
  {
    if k > 0 {
      FitsAt(layers[1..], topology[1..], k - 1);
    }
  }

  // ---------------------------------------------------------------------
  // Decoding, the pure counterpart of `from_weights`
  // ---------------------------------------------------------------------

  /** `Neuron::from_weights(n, ws)`: the first value is the bias, the next
    * `n` the weights; the rest of `ws` is left for the next neuron. */
  function DecodeNeuron(n: nat, ws: seq<real>): (r: Checked<(Neuron, seq<real>)>)
    ensures r.Ok? <==> n >= 1 && |ws| >= n + 1
    ensures r.Ok? ==> NeuronWeights(r.value.0) + r.value.1 == ws && |r.value.0.weights| == n
  {
    if |ws| < n + 1 then Panic
    else match NewNeuron(ws[0], ws[1..n + 1])
      case Panic => Panic
      case Ok(neuron) =>
        assert NeuronWeights(neuron) + ws[n + 1..] == ws by {
          assert [ws[0]] + ws[1..n + 1] == ws[..n + 1];
        }
        Ok((neuron, ws[n + 1..]))
  }

  /** `count` neurons of `width` weights, in order. */
  function DecodeNeurons(width: nat, count: nat, ws: seq<real>): Checked<(seq<Neuron>, seq<real>)>
  {
    if count == 0 then Ok(([], ws))
    else match DecodeNeuron(width, ws)
      case Panic => Panic
      case Ok((first, rest)) =>
        match DecodeNeurons(width, count - 1, rest)
        case Panic => Panic
        case Ok((others, left)) => Ok(([first] + others, left))
  }

  /** Decoding `count` neurons succeeds exactly when they have inputs and
    * enough values are there. */
  lemma {:induction false} DecodeNeuronsOk(width: nat, count: nat, ws: seq<real>)
    ensures DecodeNeurons(width, count, ws).Ok? <==> (count == 0 || width >= 1) && |ws| >= LayerCount(width, count)
  {
    if count > 0 && DecodeNeuron(width, ws).Ok? {
      var rest := DecodeNeuron(width, ws).value.1;
      assert |rest| == |ws| - (width + 1);
      DecodeNeuronsOk(width, count - 1, rest);
    }
  }

  /** The decoded neurons have the requested shape, and their values are
    * a prefix of `ws`. */
  lemma {:induction false} DecodeNeuronsValues(width: nat, count: nat, ws: seq<real>)
    requires DecodeNeurons(width, count, ws).Ok?
    ensures NeuronsWeights(DecodeNeurons(width, count, ws).value.0) + DecodeNeurons(width, count, ws).value.1 == ws
    ensures NeuronsShaped(DecodeNeurons(width, count, ws).value.0, width, count)
  {
    if count > 0 {
      var (first, rest) := DecodeNeuron(width, ws).value;
      DecodeNeuronsValues(width, count - 1, rest);
      var (others, left) := DecodeNeurons(width, count - 1, rest).value;
      var ns := [first] + others;
      assert DecodeNeurons(width, count, ws) == Ok((ns, left));
      assert ns[1..] == others;
      assert NeuronsWeights(ns) + left == ws by {
        assert NeuronWeights(first) + (NeuronsWeights(others) + left) == ws;
      }
      forall k | 0 <= k < |ns|
        ensures |ns[k].weights| == width
      {
        if k > 0 {
          assert ns[k] == others[k - 1];
        }
      }
    }
  }

  lemma DecodeNeuronsSpec(width: nat, count: nat, ws: seq<real>)
    ensures DecodeNeurons(width, count, ws).Ok? <==> (count == 0 || width >= 1) && |ws| >= LayerCount(width, count)
    ensures DecodeNeurons(width, count, ws).Ok? ==>
      var (ns, rest) := DecodeNeurons(width, count, ws).value;
      NeuronsWeights(ns) + rest == ws && NeuronsShaped(ns, width, count)
  {
    DecodeNeuronsOk(width, count, ws);
    if DecodeNeurons(width, count, ws).Ok? {
      DecodeNeuronsValues(width, count, ws);
    }
  }

  /** `Layer::from_weights(width, count, ws, activation)`. */
  function DecodeLayer(width: nat, count: nat, activation: ActivationFunc, ws: seq<real>): Checked<(Layer, seq<real>)>
  {
    match DecodeNeurons(width, count, ws)
    case Panic => Panic
    case Ok((neurons, rest)) =>
      match NewLayer(neurons, activation)
      case Panic => Panic
      case Ok(layer) => Ok((layer, rest))
  }

  lemma DecodeLayerSpec(width: nat, count: nat, activation: ActivationFunc, ws: seq<real>)
    ensures DecodeLayer(width, count, activation, ws).Ok? <==>
      LayerBuildable(width, count, activation) && |ws| >= LayerCount(width, count)
    ensures DecodeLayer(width, count, activation, ws).Ok? ==>
      var (layer, rest) := DecodeLayer(width, count, activation, ws).value;
      NeuronsWeights(layer.neurons) + rest == ws &&
      NeuronsShaped(layer.neurons, width, count) && layer.activation == activation
  {
    DecodeNeuronsSpec(width, count, ws);
  }

  /** The layers of `topology`, one per window of two entries. */
  function DecodeLayers(topology: seq<LayerTopology>, ws: seq<real>): Checked<(seq<Layer>, seq<real>)>
    requires |topology| >= 1
    decreases |topology|
  {
    if |topology| == 1 then Ok(([], ws))
    else match DecodeLayer(topology[0].neurons, topology[1].neurons, topology[1].activation, ws)
      case Panic => Panic
      case Ok((layer, rest)) =>
        match DecodeLayers(topology[1..], rest)
        case Panic => Panic
        case Ok((layers, left)) => Ok(([layer] + layers, left))
  }

  /** `Network::from_weights(topology, ws)`: asserts two topology entries at
    * least, and panics if values remain once every layer is built. */
  function DecodeNetwork(topology: seq<LayerTopology>, ws: seq<real>): (r: Checked<Network>)
    ensures r.Ok? ==> Fits(r.value.layers, topology) && Weights(r.value) == ws
  {
    if |topology| <= 1 then Panic
    else match DecodeLayers(topology, ws)
      case Panic => Panic
      case Ok((layers, rest)) =>
        DecodeLayersSpec(topology, ws);
        if rest != [] then Panic else assert LayersWeights(layers) == ws; Ok(Network(layers))
  }

  /** The layer decoders succeed exactly when every layer is buildable and
    * enough values are there; the layers then fit the topology and their
    * values are a prefix of `ws`. */
  lemma {:induction false} DecodeLayersSpec(topology: seq<LayerTopology>, ws: seq<real>)
    requires |topology| >= 1
    ensures DecodeLayers(topology, ws).Ok? <==> LayersBuildable(topology) && |ws| >= WeightCount(topology)
    ensures DecodeLayers(topology, ws).Ok? ==>
      var (layers, rest) := DecodeLayers(topology, ws).value;
      Fits(layers, topology) && LayersWeights(layers) + rest == ws
    decreases |topology|
  {
    if |topology| > 1 {
      var t := topology;
      DecodeLayerSpec(t[0].neurons, t[1].neurons, t[1].activation, ws);
      var first := DecodeLayer(t[0].neurons, t[1].neurons, t[1].activation, ws);
      if first.Ok? {
        var (layer, rest) := first.value;
        NeuronsWeightsLength(layer.neurons, t[0].neurons, t[1].neurons);
        assert |rest| == |ws| - LayerCount(t[0].neurons, t[1].neurons);
        DecodeLayersSpec(t[1..], rest);
        if DecodeLayers(t[1..], rest).Ok? {
          var (layers, left) := DecodeLayers(t[1..], rest).value;
          assert ([layer] + layers)[1..] == layers;
          assert NeuronsWeights(layer.neurons) + (LayersWeights(layers) + left) == ws;
        }
      }
    }
  }

  /** `from_weights` succeeds exactly for a buildable topology and exactly
    * `WeightCount` values. */
  lemma DecodeNetworkSpec(topology: seq<LayerTopology>, ws: seq<real>)
    ensures DecodeNetwork(topology, ws).Ok? <==> Buildable(topology) && |ws| == WeightCount(topology)
  {
    if |topology| >= 2 {
      DecodeLayersSpec(topology, ws);
      if DecodeLayers(topology, ws).Ok? {
        var (layers, rest) := DecodeLayers(topology, ws).value;
        WeightsLength(layers, topology);
      }
    }
  }

  /** Two networks of the same shape with the same flattened values are
    * the same network. */
  lemma {:induction false} NeuronsDetermined(a: seq<Neuron>, b: seq<Neuron>, width: nat, count: nat)
    requires NeuronsShaped(a, width, count) && NeuronsShaped(b, width, count)
    requires NeuronsWeights(a) == NeuronsWeights(b)
    ensures a == b
  {
    if count > 0 {
      var na := NeuronWeights(a[0]);
      var nb := NeuronWeights(b[0]);
      assert |na| == |nb| == width + 1;
      NeuronsWeightsLength(a[1..], width, count - 1);
      NeuronsWeightsLength(b[1..], width, count - 1);
      assert na == NeuronsWeights(a)[..width + 1] && nb == NeuronsWeights(b)[..width + 1];
      assert a[0].bias == na[0] && b[0].bias == nb[0];
      assert a[0].weights == na[1..] && b[0].weights == nb[1..];
      assert NeuronsWeights(a[1..]) == NeuronsWeights(a)[width + 1..];
      assert NeuronsWeights(b[1..]) == NeuronsWeights(b)[width + 1..];
      NeuronsDetermined(a[1..], b[1..], width, count - 1);
      assert a == [a[0]] + a[1..] && b == [b[0]] + b[1..];
    }
  }

  lemma {:induction false} LayersDetermined(a: seq<Layer>, b: seq<Layer>, topology: seq<LayerTopology>)
    requires Fits(a, topology) && Fits(b, topology)
    requires LayersWeights(a) == LayersWeights(b)
    ensures a == b
  {
    if a != [] {
      var w := topology[0].neurons;
      var c := topology[1].neurons;
      NeuronsWeightsLength(a[0].neurons, w, c);
      NeuronsWeightsLength(b[0].neurons, w, c);
      var len := LayerCount(w, c);
      assert NeuronsWeights(a[0].neurons) == LayersWeights(a)[..len];
      assert NeuronsWeights(b[0].neurons) == LayersWeights(b)[..len];
      NeuronsDetermined(a[0].neurons, b[0].neurons, w, c);
      assert LayersWeights(a[1..]) == LayersWeights(a)[len..];
      assert LayersWeights(b[1..]) == LayersWeights(b)[len..];
      LayersDetermined(a[1..], b[1..], topology[1..]);
      assert a == [a[0]] + a[1..] && b == [b[0]] + b[1..];
    }
  }

  /** The round trip in the other direction: rebuilding a network of a
    * buildable topology from its own values gives the same network back. */
  lemma RebuildFromWeights(net: Network, topology: seq<LayerTopology>)
    requires Buildable(topology) && Fits(net.layers, topology)
    ensures DecodeNetwork(topology, Weights(net)) == Ok(net)
  {
    WeightsLength(net.layers, topology);
    DecodeNetworkSpec(topology, Weights(net));
    LayersDetermined(DecodeNetwork(topology, Weights(net)).value.layers, net.layers, topology);
  }

  /** The test in art-int/src/lib.rs: topology [3, 2] and eight values. */
  lemma FromWeightsExample()
    ensures
      var t := [NewTopology(3), NewTopology(2)];
      var ws := [0.1, 0.2, 0.3, 0.4, 0.5, 0.6, 0.7, 0.8];
      DecodeNetwork(t, ws).Ok? && Weights(DecodeNetwork(t, ws).value) == ws
  {
    var t := [NewTopology(3), NewTopology(2)];
    var ws := [0.1, 0.2, 0.3, 0.4, 0.5, 0.6, 0.7, 0.8];
    assert WeightCount(t[1..]) == 0;
    DecodeNetworkSpec(t, ws);
  }

  // ---------------------------------------------------------------------
  // `from_weights` over a shared iterator
  // ---------------------------------------------------------------------

  /** The iterator `from_weights` pulls its values from. */
  class WeightIter {
    var rest: seq<real>

    constructor (ws: seq<real>)
      ensures rest == ws
    {
      rest := ws;
    }

    /** `next()`: the first remaining value, or None at the end. */
    method Next() returns (r: Option<real>)
      modifies this
      ensures old(rest) == [] ==> r == None && rest == []
      ensures old(rest) != [] ==> r == Some(old(rest)[0]) && rest == old(rest)[1..]
    {
      if rest == [] {
        r := None;
      } else {
        r := Some(rest[0]);
        rest := rest[1..];
      }
    }
  }

  /** `Neuron::from_weights`: the bias, then `outputNeurons` weights, each
    * taken with `expect("got not enough weights")`. */
  method NeuronFromWeights(outputNeurons: nat, it: WeightIter) returns (r: Checked<Neuron>)
    modifies it
    ensures r.Ok? <==> DecodeNeuron(outputNeurons, old(it.rest)).Ok?
    ensures r.Ok? ==> r.value == DecodeNeuron(outputNeurons, old(it.rest)).value.0 &&
                      it.rest == DecodeNeuron(outputNeurons, old(it.rest)).value.1
  {
    ghost var ws := it.rest;
    var bias := it.Next();
    if bias.None? {
      return Panic;
    }
    var weights: seq<real> := [];
    var k := 0;
    while k < outputNeurons
      invariant 0 <= k <= outputNeurons
      invariant |ws| >= k + 1 && weights == ws[1..k + 1] && it.rest == ws[k + 1..]
    {
      var w := it.Next();
      if w.None? {
        return Panic;
      }
      weights := weights + [w.value];
      k := k + 1;
    }
    r := NewNeuron(bias.value, weights);
  }

  /** Decoding one more neuron extends the decoded prefix by it. */
  lemma {:induction false} DecodeNeuronsSnoc(width: nat, k: nat, ws: seq<real>)
    requires DecodeNeurons(width, k, ws).Ok?
    requires DecodeNeuron(width, DecodeNeurons(width, k, ws).value.1).Ok?
    ensures DecodeNeurons(width, k + 1, ws) ==
      Ok((DecodeNeurons(width, k, ws).value.0 + [DecodeNeuron(width, DecodeNeurons(width, k, ws).value.1).value.0],
          DecodeNeuron(width, DecodeNeurons(width, k, ws).value.1).value.1))
    decreases k
  {
    if k > 0 {
      var (first, rest) := DecodeNeuron(width, ws).value;
      assert DecodeNeurons(width, k, ws).value.0 == [first] + DecodeNeurons(width, k - 1, rest).value.0;
      assert DecodeNeurons(width, k, ws).value.1 == DecodeNeurons(width, k - 1, rest).value.1;
      DecodeNeuronsSnoc(width, k - 1, rest);
      var (ns, r1) := DecodeNeurons(width, k - 1, rest).value;
      var n := DecodeNeuron(width, r1).value.0;
      assert [first] + (ns + [n]) == ([first] + ns) + [n];
    } else {
      assert DecodeNeurons(width, 0, ws) == Ok(([], ws));
      var (n, left) := DecodeNeuron(width, ws).value;
      assert DecodeNeurons(width, 0, left) == Ok(([], left));
      assert [n] + [] == [] + [n];
    }
  }

  /** When the neuron after a decoded prefix panics, so does any longer prefix. */
  lemma {:induction false} DecodeNeuronsPanics(width: nat, k: nat, count: nat, ws: seq<real>)
    requires k < count
    requires DecodeNeurons(width, k, ws).Ok?
    requires DecodeNeuron(width, DecodeNeurons(width, k, ws).value.1).Panic?
    ensures DecodeNeurons(width, count, ws).Panic?
    decreases k
  {
    if k > 0 {
      var (first, rest) := DecodeNeuron(width, ws).value;
      assert DecodeNeurons(width, k, ws).value.1 == DecodeNeurons(width, k - 1, rest).value.1;
      DecodeNeuronsPanics(width, k - 1, count - 1, rest);
    }
  }

  /** `Layer::from_weights`: `outputSize` neurons of `inputSize` weights
    * each, then the checks of `Layer::new`. */
  method LayerFromWeights(inputSize: nat, outputSize: nat, it: WeightIter, activation: ActivationFunc)
    returns (r: Checked<Layer>)
    modifies it
    ensures r.Ok? <==> DecodeLayer(inputSize, outputSize, activation, old(it.rest)).Ok?
    ensures r.Ok? ==> r.value == DecodeLayer(inputSize, outputSize, activation, old(it.rest)).value.0 &&
                      it.rest == DecodeLayer(inputSize, outputSize, activation, old(it.rest)).value.1
  {
    ghost var ws := it.rest;
    var neurons: seq<Neuron> := [];
    var k := 0;
    while k < outputSize
      invariant 0 <= k <= outputSize
      invariant DecodeNeurons(inputSize, k, ws) == Ok((neurons, it.rest))
    {
      var n := NeuronFromWeights(inputSize, it);
      if n.Panic? {
        DecodeNeuronsPanics(inputSize, k, outputSize, ws);
        return Panic;
      }
      DecodeNeuronsSnoc(inputSize, k, ws);
      neurons := neurons + [n.value];
      k := k + 1;
    }
    r := NewLayer(neurons, activation);
  }

  /** What remains of `DecodeLayers` once `done` layers are built. */
  function DecodeLayersFrom(done: seq<Layer>, topology: seq<LayerTopology>, ws: seq<real>): Checked<(seq<Layer>, seq<real>)>
    requires |topology| >= 1
  {
    match DecodeLayers(topology, ws)
    case Panic => Panic
    case Ok((layers, rest)) => Ok((done + layers, rest))
  }

  /** Building the next layer moves it from the remaining decoding to the
    * layers already built. */
  lemma DecodeLayersStep(done: seq<Layer>, topology: seq<LayerTopology>, ws: seq<real>)
    requires |topology| >= 2
    requires DecodeLayer(topology[0].neurons, topology[1].neurons, topology[1].activation, ws).Ok?
    ensures
      var (layer, rest) := DecodeLayer(topology[0].neurons, topology[1].neurons, topology[1].activation, ws).value;
      DecodeLayersFrom(done, topology, ws) == DecodeLayersFrom(done + [layer], topology[1..], rest)
  {
    var (layer, rest) := DecodeLayer(topology[0].neurons, topology[1].neurons, topology[1].activation, ws).value;
    if DecodeLayers(topology[1..], rest).Ok? {
      var (layers, left) := DecodeLayers(topology[1..], rest).value;
      assert done + ([layer] + layers) == (done + [layer]) + layers;
    }
  }

  /** `Network::from_weights`: asserts the topology, builds one layer per
    * window of two entries from one shared iterator, and panics with "got
    * too many weights" if values remain. */
  method NetworkFromWeights(topology: seq<LayerTopology>, ws: seq<real>) returns (r: Checked<Network>)
    ensures r.Ok? <==> Buildable(topology) && |ws| == WeightCount(topology)
    ensures r.Ok? ==> Fits(r.value.layers, topology) && Weights(r.value) == ws
    ensures r == DecodeNetwork(topology, ws)
  {
    DecodeNetworkSpec(topology, ws);
    if |topology| <= 1 {
      return Panic;
    }
    r := NetworkFromLayers(topology, ws);
  }

  /** The iterator-driven part of `from_weights`, once the topology is
    * known to have two entries. */
  method NetworkFromLayers(topology: seq<LayerTopology>, ws: seq<real>) returns (r: Checked<Network>)
    requires |topology| >= 2
    ensures r == DecodeNetwork(topology, ws)
  {
    var it := new WeightIter(ws);
    var layers: seq<Layer> := [];
    var k := 0;
    assert topology[0..] == topology;
    assert DecodeLayersFrom([], topology, ws) == DecodeLayers(topology, ws) by {
      if DecodeLayers(topology, ws).Ok? {
        assert [] + DecodeLayers(topology, ws).value.0 == DecodeLayers(topology, ws).value.0;
      }
    }
    while k < |topology| - 1
      invariant 0 <= k <= |topology| - 1
      invariant DecodeLayers(topology, ws) == DecodeLayersFrom(layers, topology[k..], it.rest)
    {
      ghost var before := it.rest;
      var layer := LayerFromWeights(topology[k].neurons, topology[k + 1].neurons, it, topology[k + 1].activation);
      if layer.Panic? {
        return Panic;
      }
      DecodeLayersStep(layers, topology[k..], before);
      assert topology[k..][1..] == topology[k + 1..];
      layers := layers + [layer.value];
      k := k + 1;
    }
    assert DecodeLayers(topology, ws) == Ok((layers, it.rest)) by {
      assert |topology[k..]| == 1;
      assert layers + [] == layers;
    }
    var extra := it.Next();
    if extra.Some? {
      return Panic;
    }
    return Ok(Network(layers));
  }

  // ---------------------------------------------------------------------
  // Random construction, with the random source as a parameter
  // ---------------------------------------------------------------------

  /** `Neuron::random(n)`: bias and `n` weights drawn from `draw`. */
  function RandomNeuron(draw: int -> real, outputNeurons: nat): (r: Checked<Neuron>)
    ensures r.Ok? <==> outputNeurons >= 1
    ensures r.Ok? ==> |r.value.weights| == outputNeurons
  {
    NewNeuron(draw(0), seq(outputNeurons, k => draw(k + 1)))
  }

  /** `Layer::random(in, out)`: `out` neurons of `in` weights each. */
  function RandomLayer(draw: (int, int) -> real, inputNeurons: nat, outputNeurons: nat, activation: ActivationFunc)
    : (r: Checked<Layer>)
    ensures r.Ok? <==> LayerBuildable(inputNeurons, outputNeurons, activation)
    ensures r.Ok? ==> NeuronsShaped(r.value.neurons, inputNeurons, outputNeurons) && r.value.activation == activation
  {
    if outputNeurons >= 1 && inputNeurons == 0 then Panic
    else
      var neurons := seq(outputNeurons, j => Neuron(draw(j, 0), seq(inputNeurons, k => draw(j, k + 1))));
      NewLayer(neurons, activation)
  }

  function RandomLayers(draw: (int, int, int) -> real, topology: seq<LayerTopology>, k: int): (r: Checked<seq<Layer>>)
    requires 1 <= |topology|
    ensures r.Ok? <==> LayersBuildable(topology)
    ensures r.Ok? ==> Fits(r.value, topology)
    decreases |topology|
  {
    if |topology| == 1 then Ok([])
    else
      var layer := RandomLayer((j, w) => draw(k, j, w), topology[0].neurons, topology[1].neurons, topology[1].activation);
      var others := RandomLayers(draw, topology[1..], k + 1);
      if layer.Panic? || others.Panic? then Panic
      else
        assert ([layer.value] + others.value)[1..] == others.value;
        Ok([layer.value] + others.value)
  }

  /** `Network::random(topology)`: asserts two entries at least and builds
    * one random layer per window. */
  function RandomNetwork(draw: (int, int, int) -> real, topology: seq<LayerTopology>): (r: Checked<Network>)
    ensures r.Ok? <==> Buildable(topology)
    ensures r.Ok? ==> Fits(r.value.layers, topology)
  {
    if |topology| <= 1 then Panic
    else match RandomLayers(draw, topology, 0)
      case Panic => Panic
      case Ok(layers) => Ok(Network(layers))
  }

  // ---------------------------------------------------------------------
  // Crossover, with the coin flips as a parameter
  // ---------------------------------------------------------------------

  function Min(a: nat, b: nat): nat { if a <= b then a else b }

  /** The bias-then-weights values of two neurons, zipped and resolved by
    * `coin` slot by slot (`true` takes the left one). */
  function ZipPick(left: seq<real>, right: seq<real>, coin: int -> bool): (r: seq<real>)
    ensures |r| == Min(|left|, |right|)
    ensures forall k :: 0 <= k < |r| ==> r[k] == (if coin(k) then left[k] else right[k])
  {
    seq(Min(|left|, |right|), k requires 0 <= k < Min(|left|, |right|) => if coin(k) then left[k] else right[k])
  }

  /** `crossover_neurons(n1, n2)`: decodes a neuron of `n1`'s width from the
    * zipped values; every slot comes from one of the parents. */
  function CrossoverNeurons(n1: Neuron, n2: Neuron, coin: int -> bool): (r: Checked<Neuron>)
    ensures r.Ok? <==> 1 <= |n1.weights| <= |n2.weights|
    ensures r.Ok? ==> |r.value.weights| == |n1.weights|
    ensures r.Ok? ==> r.value.bias == n1.bias || r.value.bias == n2.bias
    ensures r.Ok? ==> forall k :: 0 <= k < |n1.weights| ==>
      r.value.weights[k] == n1.weights[k] || r.value.weights[k] == n2.weights[k]
    ensures r.Ok? ==> forall k :: 0 <= k < |NeuronWeights(n1)| ==>
      NeuronWeights(r.value)[k] == if coin(k) then NeuronWeights(n1)[k] else NeuronWeights(n2)[k]
  {
    var zipped := ZipPick(NeuronWeights(n1), NeuronWeights(n2), coin);
    match DecodeNeuron(|n1.weights|, zipped)
    case Panic => Panic
    case Ok((neuron, rest)) =>
      assert NeuronWeights(neuron) == zipped by {
        assert |rest| == 0;
        assert NeuronWeights(neuron) + rest == zipped;
      }
      assert forall k :: 0 <= k < |neuron.weights| ==> neuron.weights[k] == NeuronWeights(neuron)[k + 1];
      Ok(neuron)
  }

  /** The neurons of one layer, crossed position by position. */
  function CrossoverLayerNeurons(a: seq<Neuron>, b: seq<Neuron>, coin: (int, int) -> bool): (r: Checked<seq<Neuron>>)
    ensures r.Ok? <==> forall j :: 0 <= j < Min(|a|, |b|) ==> 1 <= |a[j].weights| <= |b[j].weights|
    ensures r.Ok? ==> (|r.value| == Min(|a|, |b|) &&
      forall j :: 0 <= j < |r.value| ==> |r.value[j].weights| == |a[j].weights|)
  {
    if a == [] || b == [] then Ok([])
    else
      var first := CrossoverNeurons(a[0], b[0], k => coin(0, k));
      var others := CrossoverLayerNeurons(a[1..], b[1..], (j, k) => coin(j + 1, k));
      assert forall j :: 1 <= j < Min(|a|, |b|) ==> a[1..][j - 1] == a[j] && b[1..][j - 1] == b[j];
      if first.Panic? || others.Panic? then Panic
      else
        assert forall j :: 1 <= j < |[first.value] + others.value| ==>
          ([first.value] + others.value)[j] == others.value[j - 1];
        Ok([first.value] + others.value)
  }

  /** Neuron `j` of the crossed layer takes each value from neuron `j` of
    * the left or of the right layer, as `coin(j, k)` picks: the zip pairs
    * neurons by position. */
  lemma {:induction false} CrossoverLayerNeuronsZip(a: seq<Neuron>, b: seq<Neuron>, coin: (int, int) -> bool)
    requires CrossoverLayerNeurons(a, b, coin).Ok?
    ensures var r := CrossoverLayerNeurons(a, b, coin).value;
      forall j, k :: 0 <= j < |r| && 0 <= k < |NeuronWeights(a[j])| ==>
        NeuronWeights(r[j])[k] == if coin(j, k) then NeuronWeights(a[j])[k] else NeuronWeights(b[j])[k]
  {
    if a != [] && b != [] {
      var r := CrossoverLayerNeurons(a, b, coin).value;
      var coin' := (j, k) => coin(j + 1, k);
      CrossoverLayerNeuronsZip(a[1..], b[1..], coin');
      var others := CrossoverLayerNeurons(a[1..], b[1..], coin').value;
      var first := CrossoverNeurons(a[0], b[0], k => coin(0, k)).value;
      assert r == [first] + others;
      forall j, k | 1 <= j < |r| && 0 <= k < |NeuronWeights(a[j])|
        ensures NeuronWeights(r[j])[k] == if coin(j, k) then NeuronWeights(a[j])[k] else NeuronWeights(b[j])[k]
      {
        assert r[j] == others[j - 1] && a[j] == a[1..][j - 1] && b[j] == b[1..][j - 1];
      }
    }
  }

  /** The layers of `Network::crossover`: layers and neurons zipped by
    * position, each new layer checked by `Layer::new` with the left layer's
    * activation. */
  function CrossoverLayers(a: seq<Layer>, b: seq<Layer>, coin: (int, int, int) -> bool): (r: Checked<seq<Layer>>)
    ensures r.Ok? ==> |r.value| == Min(|a|, |b|)
    ensures r.Ok? ==> forall i :: 0 <= i < |r.value| ==>
      r.value[i].activation == a[i].activation && |r.value[i].neurons| == Min(|a[i].neurons|, |b[i].neurons|)
  {
    if a == [] || b == [] then Ok([])
    else
      var neurons := CrossoverLayerNeurons(a[0].neurons, b[0].neurons, (j, k) => coin(0, j, k));
      var others := CrossoverLayers(a[1..], b[1..], (i, j, k) => coin(i + 1, j, k));
      if neurons.Panic? || others.Panic? then Panic
      else match NewLayer(neurons.value, a[0].activation)
        case Panic => Panic
        case Ok(layer) =>
          assert forall i :: 1 <= i < Min(|a|, |b|) ==>
            ([layer] + others.value)[i] == others.value[i - 1] && a[1..][i - 1] == a[i] && b[1..][i - 1] == b[i];
          Ok([layer] + others.value)
  }

  /** `Network::crossover`: as many layers as the shorter parent, each
    * with the left parent's activation. */
  function Crossover(self: Network, other: Network, coin: (int, int, int) -> bool): (r: Checked<Network>)
    ensures r.Ok? ==> |r.value.layers| == Min(|self.layers|, |other.layers|)
    ensures r.Ok? ==> forall i :: 0 <= i < |r.value.layers| ==> r.value.layers[i].activation == self.layers[i].activation
  {
    match CrossoverLayers(self.layers, other.layers, coin)
    case Panic => Panic
    case Ok(layers) => Ok(Network(layers))
  }

  /** Crossing two networks of a buildable topology's shape never panics
    * and gives a network of the same shape. */
  lemma CrossoverKeepsShape(a: Network, b: Network, topology: seq<LayerTopology>, coin: (int, int, int) -> bool)
    requires Buildable(topology) && Fits(a.layers, topology) && Fits(b.layers, topology)
    ensures Crossover(a, b, coin).Ok?
    ensures Fits(Crossover(a, b, coin).value.layers, topology)
  {
    CrossoverLayersOk(a.layers, b.layers, topology, coin);
  }

  lemma {:induction false} CrossoverLayersOk(a: seq<Layer>, b: seq<Layer>, topology: seq<LayerTopology>, coin: (int, int, int) -> bool)
    requires Fits(a, topology) && Fits(b, topology) && LayersBuildable(topology)
    ensures CrossoverLayers(a, b, coin).Ok?
    ensures Fits(CrossoverLayers(a, b, coin).value, topology)
    decreases |a|
  {
    if a != [] {
      var neurons := CrossoverLayerNeurons(a[0].neurons, b[0].neurons, (j, k) => coin(0, j, k));
      assert neurons.Ok?;
      assert NeuronsShaped(neurons.value, topology[0].neurons, topology[1].neurons);
      CrossoverLayersOk(a[1..], b[1..], topology[1..], (i, j, k) => coin(i + 1, j, k));
      var others := CrossoverLayers(a[1..], b[1..], (i, j, k) => coin(i + 1, j, k));
      assert ([Layer(neurons.value, a[0].activation)] + others.value)[1..] == others.value;
    }
  }

  /** `r` takes every slot from `x` or from `y`, the three being equally long. */
  predicate Slotwise(r: seq<real>, x: seq<real>, y: seq<real>)
  {
    |r| == |x| == |y| && forall i :: 0 <= i < |r| ==> r[i] == x[i] || r[i] == y[i]
  }

  lemma SlotwiseConcat(r1: seq<real>, x1: seq<real>, y1: seq<real>, r2: seq<real>, x2: seq<real>, y2: seq<real>)
    requires Slotwise(r1, x1, y1) && Slotwise(r2, x2, y2)
    ensures Slotwise(r1 + r2, x1 + x2, y1 + y2)
  {
    forall i | 0 <= i < |r1 + r2|
      ensures (r1 + r2)[i] == (x1 + x2)[i] || (r1 + r2)[i] == (y1 + y2)[i]
    {
      if i >= |r1| {
        assert (r1 + r2)[i] == r2[i - |r1|] && (x1 + x2)[i] == x2[i - |r1|] && (y1 + y2)[i] == y2[i - |r1|];
      }
    }
  }

  /** Crossing two equally shaped neuron lists takes each flattened value
    * from the same position of one of them. */
  lemma {:induction false} CrossoverNeuronsSlots(a: seq<Neuron>, b: seq<Neuron>, width: nat, count: nat, coin: (int, int) -> bool)
    requires (count >= 1 ==> width >= 1) && NeuronsShaped(a, width, count) && NeuronsShaped(b, width, count)
    ensures CrossoverLayerNeurons(a, b, coin).Ok?
    ensures Slotwise(NeuronsWeights(CrossoverLayerNeurons(a, b, coin).value), NeuronsWeights(a), NeuronsWeights(b))
    decreases count
  {
    var r := CrossoverLayerNeurons(a, b, coin).value;
    if a != [] {
      assert NeuronsShaped(a[1..], width, count - 1) && NeuronsShaped(b[1..], width, count - 1);
      var coin' := (j, k) => coin(j + 1, k);
      CrossoverNeuronsSlots(a[1..], b[1..], width, count - 1, coin');
      var others := CrossoverLayerNeurons(a[1..], b[1..], coin').value;
      assert r == [r[0]] + others;
      assert Slotwise(NeuronWeights(r[0]), NeuronWeights(a[0]), NeuronWeights(b[0])) by {
        forall k | 0 <= k < |NeuronWeights(a[0])|
          ensures NeuronWeights(r[0])[k] == NeuronWeights(a[0])[k] || NeuronWeights(r[0])[k] == NeuronWeights(b[0])[k]
        {
        }
      }
      assert r[1..] == others;
      SlotwiseConcat(NeuronWeights(r[0]), NeuronWeights(a[0]), NeuronWeights(b[0]),
                     NeuronsWeights(others), NeuronsWeights(a[1..]), NeuronsWeights(b[1..]));
    }
  }

  /** The same, layer by layer. */
  lemma {:induction false} CrossoverLayersSlots(a: seq<Layer>, b: seq<Layer>, topology: seq<LayerTopology>, coin: (int, int, int) -> bool)
    requires Fits(a, topology) && Fits(b, topology) && LayersBuildable(topology)
    ensures CrossoverLayers(a, b, coin).Ok?
    ensures Slotwise(LayersWeights(CrossoverLayers(a, b, coin).value), LayersWeights(a), LayersWeights(b))
    decreases |a|
  {
    CrossoverLayersOk(a, b, topology, coin);
    if a != [] {
      var coin0 := (j, k) => coin(0, j, k);
      var coin' := (i, j, k) => coin(i + 1, j, k);
      CrossoverNeuronsSlots(a[0].neurons, b[0].neurons, topology[0].neurons, topology[1].neurons, coin0);
      CrossoverLayersSlots(a[1..], b[1..], topology[1..], coin');
      var neurons := CrossoverLayerNeurons(a[0].neurons, b[0].neurons, coin0).value;
      var others := CrossoverLayers(a[1..], b[1..], coin').value;
      var r := CrossoverLayers(a, b, coin).value;
      assert r == [Layer(neurons, a[0].activation)] + others;
      assert r[1..] == others;
      SlotwiseConcat(NeuronsWeights(neurons), NeuronsWeights(a[0].neurons), NeuronsWeights(b[0].neurons),
                     LayersWeights(others), LayersWeights(a[1..]), LayersWeights(b[1..]));
    }
  }

  /** `crossover` of two networks of one buildable topology: every value of
    * the child's `weights()` is the value at the same position of one of
    * the parents. */
  lemma CrossoverSlots(a: Network, b: Network, topology: seq<LayerTopology>, coin: (int, int, int) -> bool)
    requires Buildable(topology) && Fits(a.layers, topology) && Fits(b.layers, topology)
    ensures Crossover(a, b, coin).Ok?
    ensures |Weights(Crossover(a, b, coin).value)| == |Weights(a)| == |Weights(b)|
    ensures forall i :: 0 <= i < |Weights(a)| ==>
      Weights(Crossover(a, b, coin).value)[i] == Weights(a)[i] || Weights(Crossover(a, b, coin).value)[i] == Weights(b)[i]
  {
    CrossoverLayersSlots(a.layers, b.layers, topology, coin);
  }

  // ---------------------------------------------------------------------
  // Propagation
  // ---------------------------------------------------------------------

  /** The zipped dot product: pairs up to the shorter of the two lists. */
  function Dot(xs: seq<real>, ws: seq<real>): real
  {
    if xs == [] || ws == [] then 0.0 else xs[0] * ws[0] + Dot(xs[1..], ws[1..])
  }

  function Max0(x: real): real { if x >= 0.0 then x else 0.0 }

  /** ReLu propagation: one output per neuron, the neuron's bias plus its
    * dot product with the input, cut off at zero. */
  function PropagateReLu(neurons: seq<Neuron>, inputs: seq<real>): (r: seq<real>)
    ensures |r| == |neurons|
    ensures forall k :: 0 <= k < |r| ==> r[k] >= 0.0 && r[k] == Max0(neurons[k].bias + Dot(inputs, neurons[k].weights))
  {
    seq(|neurons|, k requires 0 <= k < |neurons| => Max0(neurons[k].bias + Dot(inputs, neurons[k].weights)))
  }

  function Sum(xs: seq<real>): real
  {
    if xs == [] then 0.0 else xs[0] + Sum(xs[1..])
  }

  /** `exp` applied to every value. */
  function MapExp(xs: seq<real>, exp: real -> real): (r: seq<real>)
    ensures |r| == |xs| && forall k :: 0 <= k < |xs| ==> r[k] == exp(xs[k])
  {
    seq(|xs|, k requires 0 <= k < |xs| => exp(xs[k]))
  }

  /** The values divided by a positive total. */
  function Scaled(xs: seq<real>, total: real): (r: seq<real>)
    requires total > 0.0
    ensures |r| == |xs| && forall k :: 0 <= k < |xs| ==> r[k] == xs[k] / total
  {
    seq(|xs|, k requires 0 <= k < |xs| => xs[k] / total)
  }

  /** SoftMax: every value's exponential divided by the sum of all of them.
    * The exponential function is a parameter (floats are not modelled). */
  function SoftMaxOf(inputs: seq<real>, exp: real -> real): (r: seq<real>)
    requires forall x :: exp(x) > 0.0
    ensures |r| == |inputs|
  {
    if inputs == [] then []
    else
      var e := MapExp(inputs, exp);
      MapExpPositive(inputs, exp);
      PositiveSum(e);
      Scaled(e, Sum(e))
  }

  lemma MapExpPositive(xs: seq<real>, exp: real -> real)
    requires forall x :: exp(x) > 0.0
    ensures forall k :: 0 <= k < |xs| ==> MapExp(xs, exp)[k] > 0.0
  {
    forall k | 0 <= k < |xs|
      ensures MapExp(xs, exp)[k] > 0.0
    {
      var x := xs[k];
      assert exp(x) > 0.0;
    }
  }

  lemma {:induction false} PositiveSum(xs: seq<real>)
    requires xs != [] && forall k :: 0 <= k < |xs| ==> xs[k] > 0.0
    ensures Sum(xs) > 0.0
  {
    if |xs| > 1 {
      PositiveSum(xs[1..]);
    }
  }

  lemma {:induction false} SumScaled(xs: seq<real>, c: real)
    requires c > 0.0
    ensures Sum(Scaled(xs, c)) == Sum(xs) / c
  {
    if xs != [] {
      SumScaled(xs[1..], c);
      assert Scaled(xs, c)[1..] == Scaled(xs[1..], c);
    }
  }

  /** SoftMax outputs sum to one for any non-empty input. */
  lemma SoftMaxSumsToOne(inputs: seq<real>, exp: real -> real)
    requires forall x :: exp(x) > 0.0
    requires inputs != []
    ensures Sum(SoftMaxOf(inputs, exp)) == 1.0
  {
    var e := MapExp(inputs, exp);
    MapExpPositive(inputs, exp);
    PositiveSum(e);
    SumScaled(e, Sum(e));
    assert SoftMaxOf(inputs, exp) == Scaled(e, Sum(e));
    assert Sum(e) / Sum(e) == 1.0;
  }

  lemma {:induction false} SumSnoc(xs: seq<real>, x: real)
    ensures Sum(xs + [x]) == Sum(xs) + x
  {
    if xs != [] {
      assert (xs + [x])[1..] == xs[1..] + [x];
      SumSnoc(xs[1..], x);
    }
  }

  /** The first pass of SoftMax: replaces every value by its exponential,
    * in place, and returns their sum. */
  method ExpInPlace(values: array<real>, exp: real -> real) returns (sum: real)
    modifies values
    ensures values[..] == MapExp(old(values[..]), exp)
    ensures sum == Sum(values[..])
  {
    ghost var inputs := values[..];
    sum := 0.0;
    var k := 0;
    while k < values.Length
      invariant 0 <= k <= values.Length
      invariant values[..k] == MapExp(inputs[..k], exp)
      invariant values[k..] == inputs[k..]
      invariant sum == Sum(values[..k])
    {
      SumSnoc(values[..k], exp(inputs[k]));
      assert values[k] == inputs[k] by { assert values[k..][0] == values[k]; }
      values[k] := exp(values[k]);
      assert values[..k + 1] == values[..k] + [values[k]];
      assert inputs[..k + 1] == inputs[..k] + [inputs[k]];
      sum := sum + values[k];
      k := k + 1;
    }
    assert values[..] == values[..values.Length];
    assert inputs == inputs[..values.Length];
  }

  /** The second pass of SoftMax: divides every value by `sum`, in place. */
  method DivideInPlace(values: array<real>, sum: real)
    requires sum > 0.0
    modifies values
    ensures values[..] == Scaled(old(values[..]), sum)
  {
    ghost var e := values[..];
    var k := 0;
    while k < values.Length
      invariant 0 <= k <= values.Length
      invariant forall i :: 0 <= i < k ==> values[i] == e[i] / sum
      invariant forall i :: k <= i < values.Length ==> values[i] == e[i]
    {
      values[k] := values[k] / sum;
      k := k + 1;
    }
  }

  /** SoftMax as written: one pass replaces every value by its exponential
    * and sums them, a second pass divides by the sum, both in place. */
  method SoftMaxInPlace(values: array<real>, exp: real -> real)
    requires forall x :: exp(x) > 0.0
    modifies values
    ensures values[..] == SoftMaxOf(old(values[..]), exp)
  {
    ghost var inputs := values[..];
    var sum := ExpInPlace(values, exp);
    if values.Length == 0 {
      return;
    }
    MapExpPositive(inputs, exp);
    PositiveSum(values[..]);
    DivideInPlace(values, sum);
  }

  /** `Layer::propagate`: ReLu gives one value per neuron, SoftMax
    * normalises the inputs and keeps their number. */
  function PropagateLayer(layer: Layer, inputs: seq<real>, exp: real -> real): (r: seq<real>)
    requires forall x :: exp(x) > 0.0
    ensures layer.activation == ReLu ==> |r| == |layer.neurons|
    ensures layer.activation == SoftMax ==> |r| == |inputs|
  {
    match layer.activation
    case ReLu => PropagateReLu(layer.neurons, inputs)
    case SoftMax => SoftMaxOf(inputs, exp)
  }

  /** `Network::propagate`: a fold of the layers over the input. A network
    * ending in a ReLu layer outputs one value per neuron of that layer. */
  function Propagate(layers: seq<Layer>, inputs: seq<real>, exp: real -> real): (r: seq<real>)
    requires forall x :: exp(x) > 0.0
    ensures layers != [] && layers[|layers| - 1].activation == ReLu ==> |r| == |layers[|layers| - 1].neurons|
  {
    if layers == [] then inputs else Propagate(layers[1..], PropagateLayer(layers[0], inputs, exp), exp)
  }

  /** The test in art-int/src/lib.rs: propagating through two layers is
    * propagating through the first, then the second. */
  lemma PropagateTwoLayers(l0: Layer, l1: Layer, inputs: seq<real>, exp: real -> real)
    requires forall x :: exp(x) > 0.0
    ensures Propagate([l0, l1], inputs, exp) == PropagateLayer(l1, PropagateLayer(l0, inputs, exp), exp)
  {
    var mid := PropagateLayer(l0, inputs, exp);
    assert [l0, l1][1..] == [l1];
    assert [l1][1..] == [];
    assert Propagate([l0, l1], inputs, exp) == Propagate([l1], mid, exp);
    assert Propagate([l1], mid, exp) == Propagate([], PropagateLayer(l1, mid, exp), exp);
  }
}
