/** The legacy server's point-cloud workflow: reading PDAL metadata, the `processLas` pipeline
  * (an existence guard, the PDAL stage list written to a temporary file, the run, the clean-up),
  * and the tileset rewrite after `py3dtiles convert`. Files, processes and the UUID generator are
  * parameters: `existsSync` answers `fs.existsSync`, the process events come from the child process,
  * and the tileset file is given as what reading and parsing it produce. */
module PointcloudWorkflow {
  import opened Wrappers
  import opened Text
  import opened Lists
  import opened Numbers
  import opened JsValues
  import opened TileTrees
  import opened Scripts
  import Processes

  type Stage = Processes.Stage<JsValue>

  /** `static/data/${file.name}${file.extension}`: the uploaded point cloud. */
  function InputPath(e: Engine, file: Props): string
  {
    "static/data/" + ToString(e, Lookup(file, "name")) + ToString(e, Lookup(file, "extension"))
  }

  // ---------------------------------------------------------------------------------------
  // pdalMetadata

  /** `pdal info <input> --metadata` */
  function MetadataArgv(e: Engine, file: Props): seq<JsValue>
  {
    PdalCLI([Str("info"), Str(InputPath(e, file)), Str("--metadata")])
  }

  /** The stdout text collected before the promise settled, chunk after chunk. */
  function StdOutText(events: seq<ProcessEvent>): string
  {
    Flatten(Chunks(events[..SettledAt(events)], true))
  }

  /** What `JSON.parse` throws on text that is not JSON. */
  const SyntaxErrorReason: string := "SyntaxError"

  /** `pdalMetadata({file})`: a failed spawn rejects; after the exit the collected output is
    * parsed as one JSON text, and a parse failure is rethrown. */
  function PdalMetadata(parse: string -> Option<JsValue>, events: seq<ProcessEvent>): Settlement
  {
    match SettlementOf(events)
    case Resolved(_) =>
      (match parse(StdOutText(events))
       case None => Rejected(SyntaxErrorReason)
       case Some(v) => Resolved(v))
    case other => other
  }

  /** When the first `exit` or `error` comes after `pre`, the settlement index is `|pre|`. */
  lemma {:induction false} SettledAfter(pre: seq<ProcessEvent>, last: ProcessEvent, rest: seq<ProcessEvent>)
    requires forall i :: 0 <= i < |pre| ==> !Terminal(pre[i])
    requires Terminal(last)
    ensures SettledAt(pre + [last] + rest) == |pre|
    ensures (pre + [last] + rest)[..|pre|] == pre
  {
    var events := pre + [last] + rest;
    if |pre| > 0 {
      assert events[1..] == pre[1..] + [last] + rest;
      SettledAfter(pre[1..], last, rest);
    }
  }

  /** The metadata is the parse of all stdout text before the exit, whatever the exit code;
    * a failed spawn rejects with its message. */
  lemma MetadataOfRun(parse: string -> Option<JsValue>, pre: seq<ProcessEvent>, last: ProcessEvent,
                      rest: seq<ProcessEvent>)
    requires forall i :: 0 <= i < |pre| ==> !Terminal(pre[i])
    requires Terminal(last)
    ensures var r := PdalMetadata(parse, pre + [last] + rest);
      var text := Flatten(Chunks(pre, true));
      (last.SpawnError? ==> r == Rejected(last.message)) &&
      (last.Exit? && parse(text).Some? ==> r == Resolved(parse(text).value)) &&
      (last.Exit? && parse(text).None? ==> r == Rejected(SyntaxErrorReason))
  {
    ExitResolves(pre, last, rest);
    SettledAfter(pre, last, rest);
  }

  /** How PDAL's output is cut into chunks does not matter: two runs whose output before the
    * exit concatenates to the same text give the same metadata. */
  lemma MetadataIgnoresChunking(parse: string -> Option<JsValue>,
                                pre1: seq<ProcessEvent>, rest1: seq<ProcessEvent>,
                                pre2: seq<ProcessEvent>, rest2: seq<ProcessEvent>, code1: JsValue, code2: JsValue)
    requires forall i :: 0 <= i < |pre1| ==> !Terminal(pre1[i])
    requires forall i :: 0 <= i < |pre2| ==> !Terminal(pre2[i])
    requires Flatten(Chunks(pre1, true)) == Flatten(Chunks(pre2, true))
    ensures PdalMetadata(parse, pre1 + [Exit(code1)] + rest1) == PdalMetadata(parse, pre2 + [Exit(code2)] + rest2)
  {
    MetadataOfRun(parse, pre1, Exit(code1), rest1);
    MetadataOfRun(parse, pre2, Exit(code2), rest2);
  }

  // ---------------------------------------------------------------------------------------
  // processLas

  /** `processLas({file, config})` */
  datatype LasRequest = LasRequest(file: Props, config: JsValue)

  /** `fs.existsSync`, the engine's number texts, and the UUID this call draws. */
  datatype LasHosts = LasHosts(e: Engine, existsSync: string -> bool, uuid: string)

  /** `${outputName || file.name}${file.extension}` */
  function OutputFileName(e: Engine, r: LasRequest): string
  {
    ToString(e, Or(Member(r.config, "outputName"), Lookup(r.file, "name"))) + ToString(e, Lookup(r.file, "extension"))
  }

  function OutputFile(e: Engine, r: LasRequest): string
  {
    "./static/data/" + OutputFileName(e, r)
  }

  function CrsIn(r: LasRequest): JsValue
  {
    Member(r.config, "crsIn")
  }

  /** `config?.crsOut || crsIn` */
  function CrsOut(r: LasRequest): JsValue
  {
    Or(Member(r.config, "crsOut"), CrsIn(r))
  }

  /** `a === b` between two values parsed from the same request: primitives compare by value,
    * NaN differs from itself, and two arrays or objects parsed separately are never the same. */
  predicate StrictEquals(a: JsValue, b: JsValue)
  {
    !a.Arr? && !a.Obj? && a == b && a != Num(NaN)
  }

  /** `crsIn !== crsOut`. When `crsOut` is the very value `crsIn` they differ only for NaN. */
  predicate Reprojects(r: LasRequest)
  {
    var out := Member(r.config, "crsOut");
    if Truthy(out) then !StrictEquals(CrsIn(r), out) else CrsIn(r) == Num(NaN)
  }

  function ColorizationPart(e: Engine, r: LasRequest): seq<Stage>
  {
    var raster := Member(r.config, "rasterFile");
    if Truthy(raster) then [Processes.Colorization(Str("static/data/" + ToString(e, raster)))] else []
  }

  function SamplePart(r: LasRequest): seq<Stage>
  {
    var radius := Member(r.config, "sampleRadius");
    if Truthy(radius) then [Processes.Sample(radius)] else []
  }

  function ReprojectionPart(r: LasRequest): seq<Stage>
  {
    if Reprojects(r) then [Processes.Reprojection(CrsIn(r), CrsOut(r))] else []
  }

  function GroundPart(r: LasRequest): seq<Stage>
  {
    if Truthy(Member(r.config, "groundClassification")) then Processes.GroundStages() else []
  }

  /** The compressed writer, with `a_srs` only when `crsOut` is truthy. */
  function Writer(e: Engine, r: LasRequest): Stage
  {
    Processes.WritersLas(OutputFile(e, r), if Truthy(CrsOut(r)) then Some(CrsOut(r)) else None)
  }

  /** The PDAL pipeline of `processLas`. */
  function LasPipeline(e: Engine, r: LasRequest): seq<Stage>
  {
    [Processes.ReadersLas(InputPath(e, r.file))]
      + (ColorizationPart(e, r) + SamplePart(r) + ReprojectionPart(r) + GroundPart(r))
      + [Writer(e, r)]
  }

  /** The rank of each stage in this workflow's order: reader, colorization, sample,
    * reprojection, the four ground stages, writer. */
  function JsRank(s: Stage): int
  {
    match s
    case ReadersLas(_) => 0
    case Colorization(_) => 1
    case Sample(_) => 2
    case Reprojection(_, _) => 3
    case Assign(_) => 4
    case Elm => 5
    case Outlier => 6
    case Smrf(_) => 7
    case WritersLas(_, _) => 8
    case _ => 9
  }

  /** What the workflow does to the outside world, in order. */
  datatype Effect =
    | MakeDir(path: string)
    | WritePipeline(path: string, stages: seq<Stage>)
    | Execute(argv: seq<JsValue>)
    | Remove(path: string)

  datatype Outcome = Outcome(effects: seq<Effect>, result: Settlement)

  const TmpDirectory: string := "./tmp/"

  /** `${tmpDirectory}pipeline-${uuidv1()}.json` */
  function PipelineFile(uuid: string): string
  {
    TmpDirectory + "pipeline-" + uuid + ".json"
  }

  function AlreadyExists(outputFileName: string): string
  {
    "Please change output name. A file called " + ("\"" + outputFileName + "\"") + " already exists in the static/data folder"
  }

  /** `processLas({file, config})` run to completion with the given process events: it rejects
    * before doing anything when the output exists; otherwise it writes the pipeline to a fresh
    * temporary file, runs `pdal pipeline` on it, and on exit removes that file and fulfils with
    * `true`. A failed spawn rejects and leaves the file behind. */
  function ProcessLas(h: LasHosts, r: LasRequest, events: seq<ProcessEvent>): Outcome
  {
    if h.existsSync(OutputFile(h.e, r)) then Outcome([], Rejected(AlreadyExists(OutputFileName(h.e, r))))
    else
      var file := PipelineFile(h.uuid);
      var mkdir := if h.existsSync(TmpDirectory) then [] else [MakeDir(TmpDirectory)];
      var started := mkdir + [WritePipeline(file, LasPipeline(h.e, r)), Execute(PdalCLI([Str("pipeline"), Str(file)]))];
      match SettlementOf(events)
      case Resolved(_) => Outcome(started + [Remove(file)], Resolved(Bool(true)))
      case other => Outcome(started, other)
  }

  /** An existing output file stops the workflow before anything is built or run, with a message
    * naming that file. */
  lemma ProcessLasGuard(h: LasHosts, r: LasRequest, events: seq<ProcessEvent>)
    requires h.existsSync(OutputFile(h.e, r))
    ensures ProcessLas(h, r, events) == Outcome([], Rejected(AlreadyExists(OutputFileName(h.e, r))))
    ensures Contains(AlreadyExists(OutputFileName(h.e, r)), "\"" + OutputFileName(h.e, r) + "\"")
  {
    MessageNamesFile(OutputFileName(h.e, r));
  }

  lemma MessageNamesFile(name: string)
    ensures Contains(AlreadyExists(name), "\"" + name + "\"")
  {
    ContainsInfix("Please change output name. A file called ", "\"" + name + "\"",
                  " already exists in the static/data folder");
  }

  /** Otherwise the pipeline is written (after creating `./tmp/` when it is missing) and run;
    * the temporary file is removed exactly when the run exits, whatever its exit code, and the
    * promise is then fulfilled with `true`; a spawn error rejects with its message. */
  lemma ProcessLasRun(h: LasHosts, r: LasRequest, events: seq<ProcessEvent>)
    requires !h.existsSync(OutputFile(h.e, r))
    ensures var o := ProcessLas(h, r, events);
      var file := PipelineFile(h.uuid);
      var k := if h.existsSync(TmpDirectory) then 0 else 1;
      |o.effects| >= k + 2 &&
      (k == 1 ==> o.effects[0] == MakeDir(TmpDirectory)) &&
      o.effects[k] == WritePipeline(file, LasPipeline(h.e, r)) &&
      o.effects[k + 1] == Execute(PdalCLI([Str("pipeline"), Str(file)])) &&
      (Remove(file) in o.effects <==> SettlementOf(events).Resolved?) &&
      (o.result == Resolved(Bool(true)) <==> SettlementOf(events).Resolved?) &&
      (SettlementOf(events).Rejected? ==> o.result == SettlementOf(events))
  {
  }

  /** Each run writes its pipeline to its own file under `./tmp/`. */
  lemma PipelineFilesDistinct(u1: string, u2: string)
    requires u1 != u2
    ensures PipelineFile(u1) != PipelineFile(u2)
    ensures StartsWith(PipelineFile(u1), TmpDirectory)
  {
    UuidOfPipelineFile(u1);
    UuidOfPipelineFile(u2);
  }

  /** The UUID can be read back from the file name. */
  lemma UuidOfPipelineFile(u: string)
    ensures var f := PipelineFile(u); |f| == 20 + |u| && f[15..|f| - 5] == u
  {
  }

  /** The pipeline reads the uploaded file first and writes the output last, and every stage in
    * between comes in the order colorization, sample, reprojection, ground classification. */
  lemma LasPipelineOrdered(e: Engine, r: LasRequest)
    ensures var p := LasPipeline(e, r);
      |p| >= 2 && p[0] == Processes.ReadersLas(InputPath(e, r.file)) && p[|p| - 1] == Writer(e, r) &&
      Processes.InOrder(p, JsRank)
  {
    var a, b, c, d := ColorizationPart(e, r), SamplePart(r), ReprojectionPart(r), GroundPart(r);
    MiddleOrdered(a, b, c, d);
    Wrapped(Processes.ReadersLas(InputPath(e, r.file)), a + b + c + d, Writer(e, r));
  }

  lemma MiddleOrdered(a: seq<Stage>, b: seq<Stage>, c: seq<Stage>, d: seq<Stage>)
    requires |a| <= 1 && (forall k :: 0 <= k < |a| ==> a[k].Colorization?)
    requires |b| <= 1 && (forall k :: 0 <= k < |b| ==> b[k].Sample?)
    requires |c| <= 1 && (forall k :: 0 <= k < |c| ==> c[k].Reprojection?)
    requires d == [] || d == Processes.GroundStages()
    ensures forall i :: 0 <= i < |a + b + c + d| ==> 1 <= JsRank((a + b + c + d)[i]) <= 7
    ensures Processes.InOrder(a + b + c + d, JsRank)
  {
    var middle := a + b + c + d;
    forall i | 0 <= i < |middle|
      ensures 1 <= JsRank(middle[i]) <= 7
    {
      Processes.SectionOf(a, b, c, d, i);
    }
    forall i, j | 0 <= i < j < |middle|
      ensures JsRank(middle[i]) < JsRank(middle[j])
    {
      Processes.SectionOf(a, b, c, d, i);
      Processes.SectionOf(a, b, c, d, j);
    }
  }

  lemma Wrapped(first: Stage, middle: seq<Stage>, last: Stage)
    requires JsRank(first) == 0 && JsRank(last) == 8
    requires forall i :: 0 <= i < |middle| ==> 1 <= JsRank(middle[i]) <= 7
    requires Processes.InOrder(middle, JsRank)
    ensures Processes.InOrder([first] + middle + [last], JsRank)
  {
    var p := [first] + middle + [last];
    forall i, j | 0 <= i < j < |p|
      ensures JsRank(p[i]) < JsRank(p[j])
    {
      if i > 0 && j < |p| - 1 {
        assert p[i] == middle[i - 1] && p[j] == middle[j - 1];
      } else if i > 0 {
        assert p[i] == middle[i - 1];
      } else if j < |p| - 1 {
        assert p[j] == middle[j - 1];
      }
    }
  }

  /** Each optional stage is there exactly when its option asks for it; the writer carries the
    * output CRS exactly when that CRS is truthy. */
  lemma LasPipelinePresence(e: Engine, r: LasRequest)
    ensures StagesAsAsked(e, r, LasPipeline(e, r))
    ensures Writer(e, r).aSrs.Some? <==> Truthy(CrsOut(r))
  {
    var middle := ColorizationPart(e, r) + SamplePart(r) + ReprojectionPart(r) + GroundPart(r);
    MiddlePresence(e, r);
    BetweenReaderAndWriter(e, r, Processes.ReadersLas(InputPath(e, r.file)), middle, Writer(e, r));
  }

  /** Each optional stage is among `stages` exactly when its option asks for it. */
  ghost predicate StagesAsAsked(e: Engine, r: LasRequest, stages: seq<Stage>)
  {
    ((exists i :: 0 <= i < |stages| && stages[i].Colorization?) <==> Truthy(Member(r.config, "rasterFile"))) &&
    ((exists i :: 0 <= i < |stages| && stages[i].Sample?) <==> Truthy(Member(r.config, "sampleRadius"))) &&
    ((exists i :: 0 <= i < |stages| && stages[i].Reprojection?) <==> Reprojects(r)) &&
    ((exists i :: 0 <= i < |stages| && stages[i].Smrf?) <==> Truthy(Member(r.config, "groundClassification")))
  }

  /** A reader before and a writer after the optional stages add none of them. */
  lemma BetweenReaderAndWriter(e: Engine, r: LasRequest, reader: Stage, middle: seq<Stage>, writer: Stage)
    requires reader.ReadersLas? && writer.WritersLas? && StagesAsAsked(e, r, middle)
    ensures StagesAsAsked(e, r, [reader] + middle + [writer])
  {
    var p := [reader] + middle + [writer];
    forall i | 0 <= i < |middle|
      ensures p[i + 1] == middle[i]
    {
    }
    forall i | 0 <= i < |p| && !p[i].ReadersLas? && !p[i].WritersLas?
      ensures 1 <= i < |p| - 1 && p[i] == middle[i - 1]
    {
    }
  }

  /** The same, for the optional stages between the reader and the writer. */
  lemma MiddlePresence(e: Engine, r: LasRequest)
    ensures StagesAsAsked(e, r, ColorizationPart(e, r) + SamplePart(r) + ReprojectionPart(r) + GroundPart(r))
  {
    var a, b, c, d := ColorizationPart(e, r), SamplePart(r), ReprojectionPart(r), GroundPart(r);
    if |a| == 1 {
      Processes.SectionOf(a, b, c, d, 0);
    }
    if |b| == 1 {
      Processes.SectionOf(a, b, c, d, |a|);
    }
    if |c| == 1 {
      Processes.SectionOf(a, b, c, d, |a| + |b|);
    }
    if |d| == 4 {
      Processes.SectionOf(a, b, c, d, |a| + |b| + |c| + 3);
    }
    forall i | 0 <= i < |a + b + c + d|
      ensures (a + b + c + d)[i].Colorization? ==> |a| == 1
      ensures (a + b + c + d)[i].Sample? ==> |b| == 1
      ensures (a + b + c + d)[i].Reprojection? ==> |c| == 1
      ensures (a + b + c + d)[i].Smrf? ==> |d| == 4
    {
      Processes.SectionOf(a, b, c, d, i);
    }
  }

  /** Without a truthy `crsOut` the output CRS is the input CRS and nothing is reprojected
    * (unless the input CRS is NaN, which differs from itself); a different `crsOut` string adds
    * one reprojection between the two. */
  lemma CrsOutDefaultsToCrsIn(r: LasRequest, out: string)
    ensures !Truthy(Member(r.config, "crsOut")) ==>
      CrsOut(r) == CrsIn(r) && (ReprojectionPart(r) == [] <==> CrsIn(r) != Num(NaN))
    ensures Member(r.config, "crsOut") == Str(out) && out != "" && CrsIn(r) != Str(out) ==>
      ReprojectionPart(r) == [Processes.Reprojection(CrsIn(r), Str(out))]
  {
  }

  /** Without a truthy `outputName` the output keeps the input's name and extension. */
  lemma OutputNameDefault(e: Engine, r: LasRequest)
    requires !Truthy(Member(r.config, "outputName"))
    ensures OutputFileName(e, r) == ToString(e, Lookup(r.file, "name")) + ToString(e, Lookup(r.file, "extension"))
    ensures OutputFile(e, r) == "./" + InputPath(e, r.file)
  {
  }

  // ---------------------------------------------------------------------------------------
  // py3dtilesToTileset

  /** `py3dtilesToTileset({file, config})` */
  datatype TilesetRequest = TilesetRequest(file: Props, config: Props)

  function TilesetDirectory(e: Engine, file: Props): string
  {
    "static/tilesets/" + ToString(e, Lookup(file, "name")) + "/"
  }

  /** `py3dtiles convert` inside the `tools_env` environment, from the input CRS to 4978. */
  function Py3dtilesArgv(e: Engine, r: TilesetRequest): seq<JsValue>
  {
    MicromambaCLI(Str("tools_env"), [
      Str("py3dtiles"), Str("convert"), Str(InputPath(e, r.file)), Str("--overwrite"),
      Str("--classification"), Str("--color_scale"), NumberValue(255.0),
      Str("--out"), Str(TilesetDirectory(e, r.file)),
      Str("--srs_in"), Lookup(r.config, "crsIn"), Str("--srs_out"), Str("4978")])
  }

  /** Some stderr chunk before the exit mentions `CRSError`, so `errors` is not empty. */
  predicate ReportsCRSError(events: seq<ProcessEvent>)
  {
    exists i :: 0 <= i < SettledAt(events) && events[i].StdErr? && Contains(events[i].chunk, "CRSError")
  }

  /** `{Classification: {minimum: 0, maximum: 255}}` */
  const ClassificationRange: JsValue :=
    Obj([("Classification", Obj([("minimum", NumberValue(0.0)), ("maximum", NumberValue(255.0))]))])

  /** What `leaf.geometricError` on an undefined root throws. */
  const TypeErrorReason: string := "TypeError"

  /** The rewritten tileset: the top-level `geometricError` dropped, `properties` replaced, and the
    * root scaled when the scale is truthy (non-zero); scaling a missing root throws. */
  function RewriteTileset(d: Processes.Document<JsValue>, scale: real): Result<Processes.Document<JsValue>>
  {
    if scale == 0.0 then Ok(Processes.Document(None, d.root, Some(ClassificationRange), d.others))
    else if d.root.None? then Err(TypeErrorReason)
    else Ok(Processes.Document(None, Some(Scaled(d.root.value, scale)), Some(ClassificationRange), d.others))
  }

  datatype TilesetOutcome = TilesetOutcome(argv: seq<JsValue>, written: Option<Processes.Document<JsValue>>, result: Settlement)

  /** The whole workflow: run the tiler, then, unless it reported a CRS error, read the tileset it
    * wrote (`read`: the parsed file, or what reading or parsing it throws) and write it back
    * rewritten. */
  function Py3dtilesToTileset(e: Engine, r: TilesetRequest, scale: real, events: seq<ProcessEvent>,
                              read: Result<Processes.Document<JsValue>>): TilesetOutcome
  {
    var argv := Py3dtilesArgv(e, r);
    match SettlementOf(events)
    case Resolved(_) =>
      if ReportsCRSError(events) then TilesetOutcome(argv, None, Resolved(Bool(true)))
      else
        (match read
         case Err(reason) => TilesetOutcome(argv, None, Rejected(reason))
         case Ok(d) =>
           (match RewriteTileset(d, scale)
            case Err(reason) => TilesetOutcome(argv, None, Rejected(reason))
            case Ok(w) => TilesetOutcome(argv, Some(w), Resolved(Bool(true)))))
    case other => TilesetOutcome(argv, None, other)
  }

  /** A CRS error on stderr leaves the tileset as the tiler wrote it, yet the workflow still
    * reports success; a failed spawn rewrites nothing either. */
  lemma CRSErrorSkipsRewrite(e: Engine, r: TilesetRequest, scale: real, events: seq<ProcessEvent>,
                             read: Result<Processes.Document<JsValue>>)
    ensures var o := Py3dtilesToTileset(e, r, scale, events, read);
      (SettlementOf(events).Resolved? && ReportsCRSError(events) ==> o.written == None && o.result == Resolved(Bool(true))) &&
      (!SettlementOf(events).Resolved? ==> o.written == None && o.result == SettlementOf(events)) &&
      (o.written.Some? ==> SettlementOf(events).Resolved? && !ReportsCRSError(events) && read.Ok?)
  {
  }

  /** The written tileset has no top-level `geometricError`, the classification range as
    * `properties`, the other members unchanged, and its root either untouched (scale 0) or
    * rescaled node by node: same shape, every error multiplied, other members kept. */
  lemma RewriteContents(d: Processes.Document<JsValue>, scale: real, path: seq<nat>)
    requires scale == 0.0 || d.root.Some?
    ensures RewriteTileset(d, scale).Ok?
    ensures var w := RewriteTileset(d, scale).value;
      w.geometricError == None && w.properties == Some(ClassificationRange) && w.others == d.others &&
      w.root.Some? == d.root.Some? &&
      (scale == 0.0 ==> w.root == d.root) &&
      (scale != 0.0 ==>
        (At(w.root.value, path).Some? <==> At(d.root.value, path).Some?) &&
        (At(d.root.value, path).Some? ==>
          At(w.root.value, path).value.geometricError == At(d.root.value, path).value.geometricError * scale &&
          At(w.root.value, path).value.others == At(d.root.value, path).value.others &&
          At(w.root.value, path).value.kids.NoChildren? == At(d.root.value, path).value.kids.NoChildren?))
  {
    if scale != 0.0 {
      ScaledNodes(d.root.value, scale, path);
      var w := RewriteTileset(d, scale).value;
      assert w.root.value == Scaled(d.root.value, scale);
    }
  }

  /** Rewriting a rewritten tileset again scales its root by the product and changes nothing
    * else. */
  lemma RewriteTwice(d: Processes.Document<JsValue>, a: real, b: real)
    requires d.root.Some? && a != 0.0 && b != 0.0
    ensures RewriteTileset(d, a).Ok?
    ensures RewriteTileset(RewriteTileset(d, a).value, b) == RewriteTileset(d, a * b)
  {
    ScaleComposes(d.root.value, a, b);
    var once := RewriteTileset(d, a).value;
    assert once.root.value == Scaled(d.root.value, a);
    var x, y := RewriteTileset(once, b).value, RewriteTileset(d, a * b).value;
    assert x.root.value == y.root.value;
    assert x == y;
  }

  /** A truthy scale on a tileset without `root` makes the workflow reject. */
  lemma MissingRootRejects(d: Processes.Document<JsValue>, scale: real)
    requires d.root.None? && scale != 0.0
    ensures RewriteTileset(d, scale) == Err(TypeErrorReason)
  {
  }
}
