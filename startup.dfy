/**
 * What the script does with the parameters before it touches a pipeline:
 * the output check, the look-ups that fail when a parameter is missing, the
 * choice between voice activity detection and speaker diarization, and the
 * keyword arguments the diarization pipeline is applied with.
 */
module Startup {
  import opened Wrappers
  import opened Text
  import opened ElanParams

  datatype Mode = VAD | Diarization

  /** The string the script stores under `params['mode']`. */
  function ModeName(mode: Mode): string {
    match mode
    case VAD => "VAD"
    case Diarization => "Diarization"
  }

  /** `'VAD' if (len(sys.argv) > 1 and sys.argv[1] == 'VAD') else 'Diarization'`. */
  function ModeOf(argv: seq<string>): (mode: Mode)
    ensures mode == VAD <==> |argv| > 1 && argv[1] == "VAD"
  {
    if |argv| > 1 && argv[1] == "VAD" then VAD else Diarization
  }

  /** Why the script stops: the output check, or an exception it does not catch. */
  datatype Failure =
    | MissingOutput        // prints "ERROR: missing output parameter!" and exits with status -1
    | KeyError(key: string)
    | ValueError(text: string)

  /** A keyword argument for the pipeline call: a speaker count or the embeddings flag. */
  datatype ArgValue = Count(n: int) | Flag(b: bool)

  const NumKey: string := "num_speakers"
  const MinKey: string := "min_speakers"
  const MaxKey: string := "max_speakers"
  const EmbeddingsKey: string := "return_embeddings"

  /** The sentinel values that leave a speaker-count argument out. */
  const Unknown: string := "Unknown"
  const Unset: string := "_"

  lemma ArgKeysDistinct()
    ensures NumKey != MinKey && NumKey != MaxKey && MinKey != MaxKey
    ensures EmbeddingsKey != NumKey && EmbeddingsKey != MinKey && EmbeddingsKey != MaxKey
  {
    assert NumKey[0] != MinKey[0] && NumKey[0] != MaxKey[0] && MinKey[1] != MaxKey[1];
    assert EmbeddingsKey[0] != NumKey[0] && EmbeddingsKey[0] != MinKey[0] && EmbeddingsKey[0] != MaxKey[0];
  }

  /** All three speaker-count parameters are present. */
  predicate HasCountParams(params: map<string, string>) {
    NumKey in params && MinKey in params && MaxKey in params
  }

  /**
   * The speaker-count keyword arguments `args` agree with `params`: each is
   * present exactly when its parameter is not the sentinel, and the value
   * stored under `max_speakers` is the one parsed from `min_speakers`.
   */
  ghost predicate CountArgsAgree(params: map<string, string>, args: map<string, ArgValue>)
    requires HasCountParams(params)
  {
    && (NumKey in args <==> params[NumKey] != Unknown)
    && (MinKey in args <==> params[MinKey] != Unset)
    && (MaxKey in args <==> params[MaxKey] != Unset)
    && (NumKey in args ==> ParseInt(params[NumKey]).Some? && args[NumKey] == Count(ParseInt(params[NumKey]).value))
    && (MinKey in args ==> ParseInt(params[MinKey]).Some? && args[MinKey] == Count(ParseInt(params[MinKey]).value))
    && (MaxKey in args ==> ParseInt(params[MinKey]).Some? && args[MaxKey] == Count(ParseInt(params[MinKey]).value))
  }

  /**
   * The speaker-count keyword arguments as lines 136-146 compute them: each
   * parameter is looked up (a missing one raises `KeyError`), compared with its
   * sentinel and, when set, converted by `int()` (which may raise `ValueError`).
   * The conversion for `max_speakers` reads `min_speakers`, as the script does.
   */
  function CountArgsOf(params: map<string, string>): Result<map<string, ArgValue>, Failure> {
    if NumKey !in params then Err(KeyError(NumKey))
    else
      var num := params[NumKey];
      if num != Unknown && ParseInt(num).None? then Err(ValueError(num))
      else if MinKey !in params then Err(KeyError(MinKey))
      else
        var min := params[MinKey];
        if min != Unset && ParseInt(min).None? then Err(ValueError(min))
        else if MaxKey !in params then Err(KeyError(MaxKey))
        else if params[MaxKey] != Unset && ParseInt(min).None? then Err(ValueError(min))
        else Ok(CountArgs(num, min, params[MaxKey], ParseInt(num), ParseInt(min)))
  }

  /**
   * The dictionary the three `if`s of lines 137-146 build, given what `int()`
   * returned for `num_speakers` and for `min_speakers`.
   */
  function CountArgs(num: string, min: string, max: string, n: Option<int>, m: Option<int>): map<string, ArgValue>
    requires num != Unknown ==> n.Some?
    requires min != Unset || max != Unset ==> m.Some?
  {
    var a1: map<string, ArgValue> := if num != Unknown then map[NumKey := Count(n.value)] else map[];
    var a2 := if min != Unset then a1[MinKey := Count(m.value)] else a1;
    if max != Unset then a2[MaxKey := Count(m.value)] else a2
  }

  /** Each count is present exactly when its parameter is set, and holds the value `int()` gave. */
  lemma CountArgsShape(num: string, min: string, max: string, n: Option<int>, m: Option<int>)
    requires num != Unknown ==> n.Some?
    requires min != Unset || max != Unset ==> m.Some?
    ensures var a := CountArgs(num, min, max, n, m);
      && a.Keys <= {NumKey, MinKey, MaxKey}
      && (NumKey in a <==> num != Unknown)
      && (MinKey in a <==> min != Unset)
      && (MaxKey in a <==> max != Unset)
      && (NumKey in a ==> a[NumKey] == Count(n.value))
      && (MinKey in a ==> a[MinKey] == Count(m.value))
      && (MaxKey in a ==> a[MaxKey] == Count(m.value))
  {
    ArgKeysDistinct();
  }

  /** Adding the embeddings flag leaves the speaker-count arguments as they were. */
  lemma FlagKeepsCountArgs(params: map<string, string>, args: map<string, ArgValue>)
    requires HasCountParams(params) && CountArgsAgree(params, args)
    ensures CountArgsAgree(params, args[EmbeddingsKey := Flag(true)])
  {
    ArgKeysDistinct();
  }

  /** A successful run adds exactly the arguments whose parameter is not the sentinel. */
  lemma CountArgsAgreeWithParams(params: map<string, string>)
    requires CountArgsOf(params).Ok?
    ensures HasCountParams(params)
    ensures CountArgsOf(params).value.Keys <= {NumKey, MinKey, MaxKey}
    ensures CountArgsAgree(params, CountArgsOf(params).value)
  {
    var num, min, max := params[NumKey], params[MinKey], params[MaxKey];
    CountArgsShape(num, min, max, ParseInt(num), ParseInt(min));
  }

  /** The value passed as `max_speakers` is always the one passed as `min_speakers`. */
  lemma MaxSpeakersCopiesMin(params: map<string, string>)
    requires CountArgsOf(params).Ok? && MaxKey in CountArgsOf(params).value
    ensures MinKey in CountArgsOf(params).value
    ensures CountArgsOf(params).value[MaxKey] == CountArgsOf(params).value[MinKey]
  {
    CountArgsAgreeWithParams(params);
    SentinelsAreNotIntegers();
    var min := params[MinKey];
    assert ParseInt(min).Some?;
    assert min != Unset;
  }

  /** `int()` rejects a word made of letters, `_` and the few signs between `Z` and `a`. */
  lemma WordIsNotAnInteger(w: string)
    requires w != [] && forall i :: 0 <= i < |w| ==> 'A' <= w[i] <= 'z'
    ensures ParseInt(w).None?
  {
    ParseIntRejectsNonDigitStart(w);
  }

  lemma UnsetIsNotAnInteger()
    ensures ParseInt(Unset).None?
  {
    WordIsNotAnInteger(Unset);
  }

  lemma UnknownIsNotAnInteger()
    ensures ParseInt(Unknown).None?
  {
    WordIsNotAnInteger(Unknown);
  }

  lemma SentinelsAreNotIntegers()
    ensures ParseInt(Unset).None? && ParseInt(Unknown).None?
  {
    UnsetIsNotAnInteger();
    UnknownIsNotAnInteger();
  }

  /** A set `max_speakers` with `min_speakers` left at `_` makes `int('_')` raise `ValueError`. */
  lemma MaxWithoutMinFails(params: map<string, string>)
    requires HasCountParams(params)
    requires params[NumKey] == Unknown || ParseInt(params[NumKey]).Some?
    requires params[MinKey] == Unset && params[MaxKey] != Unset
    ensures CountArgsOf(params) == Err(ValueError(Unset))
  {
    SentinelsAreNotIntegers();
  }

  /**
   * Failures come in the script's order: the first missing parameter raises
   * `KeyError`, otherwise the first set count `int()` rejects raises `ValueError`.
   */
  lemma CountArgsFailures(params: map<string, string>)
    ensures CountArgsOf(params).Err? <==>
      || !HasCountParams(params)
      || (params[NumKey] != Unknown && ParseInt(params[NumKey]).None?)
      || (params[MinKey] != Unset && ParseInt(params[MinKey]).None?)
      || (params[MaxKey] != Unset && params[MinKey] == Unset)
    ensures CountArgsOf(params).Err? && CountArgsOf(params).error.KeyError? ==>
      CountArgsOf(params).error.key !in params
    ensures CountArgsOf(params).Err? && CountArgsOf(params).error.ValueError? ==>
      ParseInt(CountArgsOf(params).error.text).None?
  {
    SentinelsAreNotIntegers();
  }

  /**
   * Builds the speaker-count keyword arguments of a diarization run, adding
   * each to the dictionary in turn and stopping at the first failing look-up
   * or conversion.
   */
  method SpeakerCountArgs(params: map<string, string>) returns (r: Result<map<string, ArgValue>, Failure>)
    ensures r == CountArgsOf(params)
  {
    var args: map<string, ArgValue> := map[];
    if NumKey !in params { return Err(KeyError(NumKey)); }
    var numSpeakers := params[NumKey];
    if numSpeakers != Unknown {
      var n := ParseInt(numSpeakers);
      if n.None? { return Err(ValueError(numSpeakers)); }
      args := args[NumKey := Count(n.value)];
    }
    if MinKey !in params { return Err(KeyError(MinKey)); }
    var minSpeakers := params[MinKey];
    if minSpeakers != Unset {
      var n := ParseInt(minSpeakers);
      if n.None? { return Err(ValueError(minSpeakers)); }
      args := args[MinKey := Count(n.value)];
    }
    if MaxKey !in params { return Err(KeyError(MaxKey)); }
    var maxSpeakers := params[MaxKey];
    if maxSpeakers != Unset {
      // the value converted here is min_speakers, as in the script
      var n := ParseInt(minSpeakers);
      if n.None? { return Err(ValueError(minSpeakers)); }
      args := args[MaxKey := Count(n.value)];
    }
    r := Ok(args);
  }

  /** The settings the script has gathered when it is ready to load a pipeline. */
  datatype Config = Config(
    params: map<string, string>,
    mode: Mode,
    args: map<string, ArgValue>,
    verification: bool)

  const ModeKey: string := "mode"
  const CsvKey: string := "speaker_verification_csv"
  const VadKeys: seq<string> := ["onset", "offset", "min_duration_on", "min_duration_off"]
  const DiarizationKeys: seq<string> := ["min_duration_off"]

  /** The first of `keys` that `params` lacks: the look-up that raises `KeyError`. */
  function FirstMissing(params: map<string, string>, keys: seq<string>): (r: Option<string>)
    ensures r.None? <==> forall i :: 0 <= i < |keys| ==> keys[i] in params
    ensures r.Some? ==> r.value !in params
    ensures r.Some? ==> exists i :: 0 <= i < |keys| && keys[i] == r.value && forall j :: 0 <= j < i ==> keys[j] in params
  {
    if keys == [] then None
    else if keys[0] !in params then Some(keys[0])
    else
      var rest := FirstMissing(params, keys[1..]);
      assert forall i :: 0 < i < |keys| ==> keys[i] == keys[1..][i - 1];
      rest
  }

  /** The dictionary once `mode` is recorded: the one every look-up after line 108 reads. */
  function StartParams(lines: seq<string>, argv: seq<string>): map<string, string> {
    ParamsOf(lines)[ModeKey := ModeName(ModeOf(argv))]
  }

  /** A speaker-verification file is named: `params.get('speaker_verification_csv', '')` is not empty. */
  predicate Verifies(params: map<string, string>) {
    CsvKey in params && params[CsvKey] != ""
  }

  /** The diarization branch's look-ups and conversions all succeed. */
  predicate DiarizationSucceeds(params: map<string, string>) {
    && FirstMissing(params, DiarizationKeys).None?
    && CountArgsOf(params).Ok?
    && (Verifies(params) ==> "auth_token" in params)
  }

  /**
   * The diarization branch up to loading the embedding model: the look-up of
   * `min_duration_off`, the speaker-count arguments and, when a verification
   * file is named, the `return_embeddings` flag and the `auth_token` look-up.
   */
  method DiarizationArgs(params: map<string, string>) returns (r: Result<map<string, ArgValue>, Failure>)
    ensures r.Ok? <==> DiarizationSucceeds(params)
    ensures r.Err? ==> r.error.KeyError? || r.error.ValueError?
    ensures r.Err? && r.error.KeyError? ==> r.error.key !in params
    ensures r.Err? && r.error.ValueError? ==> CountArgsOf(params) == Err(r.error) && ParseInt(r.error.text).None?
    ensures r.Ok? ==>
      && HasCountParams(params)
      && r.value.Keys <= {NumKey, MinKey, MaxKey, EmbeddingsKey}
      && CountArgsAgree(params, r.value)
      && (EmbeddingsKey in r.value <==> Verifies(params))
      && (Verifies(params) ==> r.value[EmbeddingsKey] == Flag(true) && "auth_token" in params)
  {
    var missing := FirstMissing(params, DiarizationKeys);
    if missing.Some? { return Err(KeyError(missing.value)); }
    var counts := SpeakerCountArgs(params);
    if counts.Err? {
      CountArgsFailures(params);
      return Err(counts.error);
    }
    var args := counts.value;
    if Verifies(params) {
      args := args[EmbeddingsKey := Flag(true)];
      if "auth_token" !in params { return Err(KeyError("auth_token")); }
    }
    DiarizationArgsAgree(params);
    r := Ok(args);
  }

  /** The arguments of a diarization run: the speaker counts, plus the embeddings flag when verifying. */
  lemma DiarizationArgsAgree(params: map<string, string>)
    requires CountArgsOf(params).Ok?
    ensures var counts := CountArgsOf(params).value;
      var args := if Verifies(params) then counts[EmbeddingsKey := Flag(true)] else counts;
      && HasCountParams(params)
      && args.Keys <= {NumKey, MinKey, MaxKey, EmbeddingsKey}
      && CountArgsAgree(params, args)
      && (EmbeddingsKey in args <==> Verifies(params))
      && (Verifies(params) ==> args[EmbeddingsKey] == Flag(true))
  {
    ArgKeysDistinct();
    var counts := CountArgsOf(params).value;
    CountArgsAgreeWithParams(params);
    if Verifies(params) {
      FlagKeepsCountArgs(params, counts);
      assert counts[EmbeddingsKey := Flag(true)].Keys == counts.Keys + {EmbeddingsKey};
    }
  }

  /**
   * The run gets as far as loading a pipeline: an output file is named, both
   * file names and the mode's look-ups are present and, for diarization, the
   * speaker counts convert and a named verification file comes with a token.
   */
  predicate StartSucceeds(lines: seq<string>, argv: seq<string>) {
    var params := StartParams(lines, argv);
    && HasOutput(ParamsOf(lines))
    && "source" in params && "checkpoint" in params
    && (ModeOf(argv) == VAD ==> FirstMissing(params, VadKeys).None?)
    && (ModeOf(argv) == Diarization ==> DiarizationSucceeds(params))
  }

  /**
   * Everything from reading standard input to the pipeline's keyword
   * arguments: the output check comes first, so a missing output stops the
   * run whatever else was given.
   */
  method Start(lines: seq<string>, argv: seq<string>) returns (r: Result<Config, Failure>)
    ensures r == Err(MissingOutput) <==> !HasOutput(ParamsOf(lines))
    ensures r.Ok? <==> StartSucceeds(lines, argv)
    ensures r.Err? && r.error.KeyError? ==> r.error.key !in StartParams(lines, argv)
    ensures r.Err? && r.error.ValueError? ==>
      && ModeOf(argv) == Diarization
      && CountArgsOf(StartParams(lines, argv)) == Err(r.error)
      && ParseInt(r.error.text).None?
    ensures r.Ok? ==> HasOutput(r.value.params) && "source" in r.value.params && "checkpoint" in r.value.params
    ensures r.Ok? ==> r.value.mode == ModeOf(argv) && r.value.params == StartParams(lines, argv)
    ensures r.Ok? ==> r.value.args.Keys <= {NumKey, MinKey, MaxKey, EmbeddingsKey}
    ensures r.Ok? && r.value.mode == VAD ==> r.value.args == map[] && !r.value.verification
    ensures r.Ok? && r.value.mode == Diarization ==>
      var params := r.value.params;
      && HasCountParams(params)
      && CountArgsAgree(params, r.value.args)
      && (r.value.verification <==> Verifies(params))
      && (EmbeddingsKey in r.value.args <==> r.value.verification)
      && (r.value.verification ==> r.value.args[EmbeddingsKey] == Flag(true) && "auth_token" in params)
  {
    ArgKeysDistinct();
    var params := ReadParams(lines);
    if !HasOutput(params) { return Err(MissingOutput); }
    // html.unescape of the two file names is left out: the values are kept as read
    if "source" !in params { return Err(KeyError("source")); }
    if "checkpoint" !in params { return Err(KeyError("checkpoint")); }
    var mode := ModeOf(argv);
    params := params[ModeKey := ModeName(mode)];
    var args: map<string, ArgValue> := map[];
    var verification := false;
    if mode == VAD {
      var missing := FirstMissing(params, VadKeys);
      if missing.Some? { return Err(KeyError(missing.value)); }
    } else {
      var diarization := DiarizationArgs(params);
      if diarization.Err? { return Err(diarization.error); }
      args := diarization.value;
      verification := Verifies(params);
    }
    r := Ok(Config(params, mode, args, verification));
  }
}
