/** The `WriterService` object of write_service.py, as far as reading its
    configuration goes: `load_config` returns the settings and may replace
    the service's text file path. */
module WriterServiceModel {
  import opened Wrappers
  import opened ServiceConfig

  /** The path separator of the platform the service runs on. */
  const Sep: char := '\\'

  class WriterService {
    /** The file whose text a typing session types. */
    var textFile: string
    /** The file the settings are read from. */
    const configFile: string

    /** A service installed in `scriptDir`: both files are looked for next
        to the script. */
    constructor(scriptDir: string)
      ensures textFile == scriptDir + [Sep] + "text.txt"
      ensures configFile == scriptDir + [Sep] + "service_config.txt"
    {
      textFile := scriptDir + [Sep] + "text.txt";
      configFile := scriptDir + [Sep] + "service_config.txt";
    }

    /** Reads the settings from `file` (the lines of the configuration
        file, or None when it does not exist or cannot be opened), starting
        from the defaults; `parseFloat` is Python's `float()` on a string,
        None where it raises. The configuration returned and the new text
        file path are those `Load` describes. */
    method LoadConfig(file: Option<seq<string>>, parseFloat: string -> Option<real>) returns (config: Config)
      modifies this
      ensures Loaded(config, textFile) == Load(file, parseFloat, old(textFile))
    {
      config := Defaults;
      if file.None? {
        return;
      }
      var lines := file.value;
      ghost var es := Effects(lines, parseFloat);
      ghost var goal := Run(Loaded(Defaults, textFile), es);
      var i := 0;
      while i < |lines|
        invariant 0 <= i <= |lines|
        invariant ReadsTo(goal, Loaded(config, textFile), es, i)
      {
        ghost var before := Loaded(config, textFile);
        var stop;
        config, stop := ReadLine(lines[i], parseFloat, config);
        if stop {
          AbortLine(goal, before, es, i);
          break;
        }
        if es[i].Skip? {
          SkipLine(goal, before, es, i);
        } else {
          AssignLine(goal, before, es, i, es[i].setting);
        }
        i := i + 1;
      }
      if i == |lines| {
        EndOfLines(goal, Loaded(config, textFile), es);
      }
    }

    /** One line of the configuration file, read into `config` and the text
        file path: what the line's effect says, or `stop` when `float()`
        rejects its value and the reading ends. */
    method ReadLine(raw: string, parseFloat: string -> Option<real>, config: Config)
      returns (config': Config, stop: bool)
      modifies this
      ensures stop <==> Classify(raw, parseFloat).Abort?
      ensures Classify(raw, parseFloat).Skip? || stop ==> config' == config && textFile == old(textFile)
      ensures Classify(raw, parseFloat).Assign? ==>
        Loaded(config', textFile) == ApplySetting(Loaded(config, old(textFile)), Classify(raw, parseFloat).setting)
    {
      config' := config;
      stop := false;
      var line := Strip(raw);
      if line != [] && line[0] != '#' {
        if '=' in line {
          var eq := IndexOf(line, '=');
          var key := Strip(line[..eq]);
          var value := Strip(line[eq + 1..]);
          config', stop := Dispatch(key, value, parseFloat, config);
        }
      }
    }

    /** The key dispatch on a stripped key and value. */
    method Dispatch(key: string, value: string, parseFloat: string -> Option<real>, config: Config)
      returns (config': Config, stop: bool)
      modifies this
      ensures stop <==> Interpret(key, value, parseFloat).Abort?
      ensures Interpret(key, value, parseFloat).Skip? || stop ==> config' == config && textFile == old(textFile)
      ensures Interpret(key, value, parseFloat).Assign? ==>
        Loaded(config', textFile) == ApplySetting(Loaded(config, old(textFile)), Interpret(key, value, parseFloat).setting)
    {
      config' := config;
      stop := false;
      if key == "delay" {
        var x := parseFloat(value);
        if x.None? {
          return config', true;
        }
        config' := config'.(delay := x.value);
      } else if key == "min_interval" {
        var x := parseFloat(value);
        if x.None? {
          return config', true;
        }
        config' := config'.(minInterval := x.value);
      } else if key == "max_interval" {
        var x := parseFloat(value);
        if x.None? {
          return config', true;
        }
        config' := config'.(maxInterval := x.value);
      } else if key == "randomize" {
        config' := config'.(randomize := IsTruthy(value));
      } else if key == "restart_on_completion" {
        config' := config'.(restartOnCompletion := IsTruthy(value));
      } else if key == "restart_delay" {
        var x := parseFloat(value);
        if x.None? {
          return config', true;
        }
        config' := config'.(restartDelay := x.value);
      } else if key == "text_file" {
        textFile := value;
      }
    }
  }
}
