/** The loaded configuration: file, secret files and environment in layers. */
module Configuration {
  import opened Text
  import opened ConfigFile
  import opened Duration

  const USERNAME := "username"
  const PASSWORD := "password"
  const ADMIN_USER := "iceadminuser"
  const USER_PASS := "iceuserpass"
  const THREADS := "thread_count"
  const CORES := "cpu_cores"
  const MEMORY := "memory_limit"
  const USERNAME_FILE := "username_file"
  const PASSWORD_FILE := "password_file"

  /** The variables of the process and the files it can open. */
  datatype Surroundings = Surroundings(env: map<string, string>, files: map<string, string>) {
    function Env(name: string): Option<string> { Lookup(env, name) }

    /** The first line of a secret file, without a carriage return at its end. None when
        the file cannot be opened or is empty. */
    function Secret(path: Option<string>): Option<string> {
      if path.Some? && path.value in files && files[path.value] != "" then
        var line := FirstLine(files[path.value]);
        Some(if line != "" && line[|line| - 1] == '\r' then line[..|line| - 1] else line)
      else
        None
    }
  }

  /** A credential: the variable itself wins over the file that a variable names, which
      wins over the file that the configuration names, which wins over the configuration. */
  function Credential(w: Surroundings, direct: string, inFile: string, configured: Option<string>,
                      value: Option<string>): Option<string>
  {
    Or(w.Env(direct), Or(w.Secret(w.Env(inFile)), Or(w.Secret(configured), value)))
  }

  /** The value of a key, where `loaded` is what the configuration file leaves. */
  function Effective(w: Surroundings, loaded: map<string, string>, key: string): Option<string> {
    var value := Lookup(loaded, key);
    if key == USERNAME then
      Credential(w, "SCASTD_USERNAME", "SCASTD_USERNAME_FILE", Lookup(loaded, USERNAME_FILE), value)
    else if key == PASSWORD then
      Credential(w, "SCASTD_PASSWORD", "SCASTD_PASSWORD_FILE", Lookup(loaded, PASSWORD_FILE), value)
    else if key == ADMIN_USER then Or(w.Env("ICEADMINUSER"), Or(w.Env("SCASTD_ADMINUSER"), value))
    else if key == USER_PASS then Or(w.Env("ICEUSERPASS"), Or(w.Env("SCASTD_USERPASS"), value))
    else if key == THREADS then Or(w.Env("SCASTD_THREAD_COUNT"), value)
    else if key == CORES then Or(w.Env("SCASTD_CPU_CORES"), value)
    else if key == MEMORY then Or(w.Env("SCASTD_MEMORY_LIMIT"), value)
    else value
  }

  lemma NoLinesYet(values: map<string, string>, content: string)
    ensures FromLines(values, []) == values && [] + LinesOf(content) == LinesOf(content) && LinesOf("") == []
  {
  }

  lemma NextLine(values: map<string, string>, done: seq<string>, rest: string)
    requires rest != ""
    ensures done + LinesOf(rest) == done + [FirstLine(rest)] + LinesOf(OtherLines(rest))
    ensures var s := SkipSpaces(BeforeHash(FirstLine(rest)));
            var key, before := Word(s), FromLines(values, done);
            FromLines(values, done + [FirstLine(rest)])
            == if key != "" then before[key := Word(SkipSpaces(s[|key|..]))] else before
  {
    hide FromLines, LastValue, Lookup, Or, Word, SkipSpaces, BeforeHash, FirstLine, OtherLines;
    OneMoreLine(values, done, FirstLine(rest));
  }

  lemma KeysDiffer()
    ensures USERNAME != PASSWORD && USERNAME != ADMIN_USER && USERNAME != USER_PASS
    ensures PASSWORD != ADMIN_USER && PASSWORD != USER_PASS && ADMIN_USER != USER_PASS
    ensures USERNAME != THREADS && PASSWORD != THREADS && ADMIN_USER != THREADS && USER_PASS != THREADS
    ensures USERNAME != CORES && PASSWORD != CORES && ADMIN_USER != CORES && USER_PASS != CORES
    ensures USERNAME != MEMORY && PASSWORD != MEMORY && ADMIN_USER != MEMORY && USER_PASS != MEMORY
    ensures THREADS != CORES && THREADS != MEMORY && CORES != MEMORY
    ensures USERNAME != USERNAME_FILE && USERNAME != PASSWORD_FILE
  {
    assert |USERNAME| == 8 && |PASSWORD| == 8 && |ADMIN_USER| == 12 && |USER_PASS| == 11;
    assert |THREADS| == 12 && |CORES| == 9 && |MEMORY| == 12 && |USERNAME_FILE| == 13 && |PASSWORD_FILE| == 13;
    assert USERNAME[0] == 'u' && PASSWORD[0] == 'p' && ADMIN_USER[0] == 'i' && THREADS[0] == 't' && MEMORY[0] == 'm';
  }

  /** One layer that may have a value for one key. */
  function Layer(values: map<string, string>, key: string, value: Option<string>): (r: map<string, string>)
    ensures forall k :: Lookup(r, k) == if k == key then Or(value, Lookup(values, k)) else Lookup(values, k)
  {
    if value.Some? then values[key := value.value] else values
  }

  /** The layers in the order in which they are put on. */
  function Layered(m: map<string, string>, w: Surroundings): map<string, string> {
    var m := Layer(m, USERNAME, w.Secret(Lookup(m, USERNAME_FILE)));
    var m := Layer(m, PASSWORD, w.Secret(Lookup(m, PASSWORD_FILE)));
    var m := Layer(m, USERNAME, w.Secret(w.Env("SCASTD_USERNAME_FILE")));
    var m := Layer(m, PASSWORD, w.Secret(w.Env("SCASTD_PASSWORD_FILE")));
    var m := Layer(m, USERNAME, w.Env("SCASTD_USERNAME"));
    var m := Layer(m, PASSWORD, w.Env("SCASTD_PASSWORD"));
    var m := Layer(m, ADMIN_USER, Or(w.Env("ICEADMINUSER"), w.Env("SCASTD_ADMINUSER")));
    var m := Layer(m, USER_PASS, Or(w.Env("ICEUSERPASS"), w.Env("SCASTD_USERPASS")));
    var m := Layer(m, THREADS, w.Env("SCASTD_THREAD_COUNT"));
    var m := Layer(m, CORES, w.Env("SCASTD_CPU_CORES"));
    Layer(m, MEMORY, w.Env("SCASTD_MEMORY_LIMIT"))
  }

  lemma StrongestLayerWins(m: map<string, string>, w: Surroundings, key: string)
    ensures Lookup(Layered(m, w), key) == Effective(w, m, key)
  {
    KeysDiffer();
    hide Lookup, Layer, USERNAME, PASSWORD, ADMIN_USER, USER_PASS, THREADS, CORES, MEMORY, USERNAME_FILE, PASSWORD_FILE;
    hide Surroundings.Env, Surroundings.Secret;
  }

  // ----- The layers by name -----

  /** A secret is the first line of its file, with one carriage return at its end dropped. */
  lemma SecretReads(w: Surroundings, path: string, secret: string, cr: string, tail: string)
    requires NoNewline(secret) && (tail == "" || tail[0] == '\n') && secret + (cr + tail) != ""
    requires cr == "\r" || (cr == "" && (secret == "" || secret[|secret| - 1] != '\r'))
    requires path in w.files && w.files[path] == secret + (cr + tail)
    ensures w.Secret(Some(path)) == Some(secret)
  {
    var line := secret + cr;
    assert line + tail == secret + (cr + tail);
    FirstLineIs(line, tail);
    assert cr == "" ==> line == secret;
    assert cr == "\r" ==> line[..|line| - 1] == secret && line[|line| - 1] == '\r';
  }

  lemma FirstLineIs(line: string, tail: string)
    requires NoNewline(line) && (tail == "" || tail[0] == '\n')
    ensures FirstLine(line + tail) == line
  {
    if tail == "" {
      OnlyLine(line);
      assert line + tail == line;
    } else {
      assert tail == "\n" + tail[1..];
      LineEnds(line, tail[1..]);
    }
  }

  /** Without a name, without the file and from an empty file there is no secret. */
  lemma NoSecret(w: Surroundings, path: Option<string>)
    ensures w.Secret(path) == None <==> path == None || path.value !in w.files || |w.files[path.value]| == 0
  {
  }

  /** This layer gives the key its value, if it has any. */
  predicate Wins(m: map<string, string>, w: Surroundings, key: string, layer: Option<string>) {
    layer.Some? ==> Lookup(Layered(m, w), key) == layer
  }

  lemma UsernameLayers(m: map<string, string>, w: Surroundings)
    ensures Wins(m, w, "username", w.Env("SCASTD_USERNAME"))
    ensures w.Env("SCASTD_USERNAME") == None ==>
              && Wins(m, w, "username", w.Secret(w.Env("SCASTD_USERNAME_FILE")))
              && (w.Secret(w.Env("SCASTD_USERNAME_FILE")) == None ==>
                    && Wins(m, w, "username", w.Secret(Lookup(m, "username_file")))
                    && (w.Secret(Lookup(m, "username_file")) == None ==>
                          Lookup(Layered(m, w), "username") == Lookup(m, "username")))
  {
    StrongestLayerWins(m, w, "username");
    KeysDiffer();
    hide Lookup, Layered, Surroundings.Env, Surroundings.Secret;
  }

  lemma PasswordLayers(m: map<string, string>, w: Surroundings)
    ensures Wins(m, w, "password", w.Env("SCASTD_PASSWORD"))
    ensures w.Env("SCASTD_PASSWORD") == None ==>
              && Wins(m, w, "password", w.Secret(w.Env("SCASTD_PASSWORD_FILE")))
              && (w.Secret(w.Env("SCASTD_PASSWORD_FILE")) == None ==>
                    && Wins(m, w, "password", w.Secret(Lookup(m, "password_file")))
                    && (w.Secret(Lookup(m, "password_file")) == None ==>
                          Lookup(Layered(m, w), "password") == Lookup(m, "password")))
  {
    StrongestLayerWins(m, w, "password");
    KeysDiffer();
    hide Lookup, Layered, Surroundings.Env, Surroundings.Secret;
  }

  /** The administrator's credentials have two names each, the first one winning. */
  lemma AdminLayers(m: map<string, string>, w: Surroundings)
    ensures Wins(m, w, "iceadminuser", w.Env("ICEADMINUSER"))
    ensures w.Env("ICEADMINUSER") == None ==>
              && Wins(m, w, "iceadminuser", w.Env("SCASTD_ADMINUSER"))
              && (w.Env("SCASTD_ADMINUSER") == None ==>
                    Lookup(Layered(m, w), "iceadminuser") == Lookup(m, "iceadminuser"))
    ensures Wins(m, w, "iceuserpass", w.Env("ICEUSERPASS"))
    ensures w.Env("ICEUSERPASS") == None ==>
              && Wins(m, w, "iceuserpass", w.Env("SCASTD_USERPASS"))
              && (w.Env("SCASTD_USERPASS") == None ==>
                    Lookup(Layered(m, w), "iceuserpass") == Lookup(m, "iceuserpass"))
  {
    StrongestLayerWins(m, w, "iceadminuser");
    StrongestLayerWins(m, w, "iceuserpass");
    KeysDiffer();
    hide Lookup, Layered, Surroundings.Env, Surroundings.Secret;
  }

  /** The three limits have one variable each. */
  lemma LimitLayers(m: map<string, string>, w: Surroundings)
    ensures Lookup(Layered(m, w), "thread_count") == Or(w.Env("SCASTD_THREAD_COUNT"), Lookup(m, "thread_count"))
    ensures Lookup(Layered(m, w), "cpu_cores") == Or(w.Env("SCASTD_CPU_CORES"), Lookup(m, "cpu_cores"))
    ensures Lookup(Layered(m, w), "memory_limit") == Or(w.Env("SCASTD_MEMORY_LIMIT"), Lookup(m, "memory_limit"))
  {
    StrongestLayerWins(m, w, "thread_count");
    StrongestLayerWins(m, w, "cpu_cores");
    StrongestLayerWins(m, w, "memory_limit");
    KeysDiffer();
    hide Lookup, Layered, Surroundings.Env, Surroundings.Secret;
  }

  /** Every other key is as the configuration file leaves it. */
  lemma OtherKeysAreAsLoaded(m: map<string, string>, w: Surroundings, key: string)
    requires key != "username" && key != "password" && key != "iceadminuser" && key != "iceuserpass"
    requires key != "thread_count" && key != "cpu_cores" && key != "memory_limit"
    ensures Lookup(Layered(m, w), key) == Lookup(m, key)
  {
    StrongestLayerWins(m, w, key);
    hide Lookup, Layered, Surroundings.Env, Surroundings.Secret;
  }

  /** The variables that a load reads. */
  const VARIABLES := ["SCASTD_USERNAME_FILE", "SCASTD_PASSWORD_FILE", "SCASTD_USERNAME", "SCASTD_PASSWORD",
                      "ICEADMINUSER", "SCASTD_ADMINUSER", "ICEUSERPASS", "SCASTD_USERPASS",
                      "SCASTD_THREAD_COUNT", "SCASTD_CPU_CORES", "SCASTD_MEMORY_LIMIT"]

  /** No other variable has any influence. */
  lemma OnlyTheseVariables(m: map<string, string>, v: Surroundings, w: Surroundings)
    requires v.files == w.files && forall k :: 0 <= k < |VARIABLES| ==> v.Env(VARIABLES[k]) == w.Env(VARIABLES[k])
    ensures Layered(m, v) == Layered(m, w)
  {
    assert forall name: Option<string> :: v.Secret(name) == w.Secret(name);
    hide Layer, Lookup, Surroundings.Env, Surroundings.Secret;
    assert v.Env(VARIABLES[0]) == w.Env(VARIABLES[0]) && v.Env(VARIABLES[1]) == w.Env(VARIABLES[1]);
    assert v.Env(VARIABLES[2]) == w.Env(VARIABLES[2]) && v.Env(VARIABLES[3]) == w.Env(VARIABLES[3]);
    assert v.Env(VARIABLES[4]) == w.Env(VARIABLES[4]) && v.Env(VARIABLES[5]) == w.Env(VARIABLES[5]);
    assert v.Env(VARIABLES[6]) == w.Env(VARIABLES[6]) && v.Env(VARIABLES[7]) == w.Env(VARIABLES[7]);
    assert v.Env(VARIABLES[8]) == w.Env(VARIABLES[8]) && v.Env(VARIABLES[9]) == w.Env(VARIABLES[9]);
    assert v.Env(VARIABLES[10]) == w.Env(VARIABLES[10]);
  }

  /** The documented variable for the database host is none of them. */
  lemma DatabaseHostIsNotRead(m: map<string, string>, w: Surroundings, host: string)
    ensures Layered(m, w.(env := w.env["SCASTD_DATABASE_HOST" := host])) == Layered(m, w)
  {
    var name, v := "SCASTD_DATABASE_HOST", w.(env := w.env["SCASTD_DATABASE_HOST" := host]);
    forall k | 0 <= k < |VARIABLES| ensures v.Env(VARIABLES[k]) == w.Env(VARIABLES[k]) {
      assert |name| == 20 && name[7] == 'D';
      assert |VARIABLES[k]| != 20 || VARIABLES[k][7] != 'D';
    }
    hide Layered, Surroundings.Env;
    OnlyTheseVariables(m, v, w);
  }

  class Config {
    var values: map<string, string>

    constructor ()
      ensures values == map[]
    {
      values := map[];
    }

    method Set(key: string, value: string)
      modifies this
      ensures values == old(values)[key := value]
    {
      values := values[key := value];
    }

    /** Sets the key when there is a value for it. */
    method Override(key: string, value: Option<string>)
      modifies this
      ensures values == Layer(old(values), key, value)
    {
      if value.Some? {
        values := values[key := value.value];
      }
    }

    /** Loading a file that cannot be opened changes nothing. Otherwise every key has the
        value of the strongest layer that gives it one. */
    method Load(file: Option<string>, w: Surroundings) returns (ok: bool)
      modifies this
      ensures ok == file.Some?
      ensures !ok ==> values == old(values)
      ensures ok ==> forall key ::
                Lookup(values, key) == Effective(w, FromLines(old(values), LinesOf(file.value)), key)
    {
      if file.None? {
        return false;
      }
      hide *;
      LoadLines(file.value);
      ghost var loaded := values;
      LoadOverrides(w);
      forall key ensures Lookup(values, key) == Effective(w, loaded, key) {
        StrongestLayerWins(loaded, w, key);
      }
      ok := true;
    }

    method LoadLines(content: string)
      modifies this
      ensures values == FromLines(old(values), LinesOf(content))
    {
      hide *;
      NoLinesYet(values, content);
      var rest := content;
      ghost var done: seq<string> := [];
      while rest != ""
        invariant done + LinesOf(rest) == LinesOf(content)
        invariant values == FromLines(old(values), done)
        decreases |rest|
      {
        NextLine(old(values), done, rest);
        var line := FirstLine(rest);
        done := done + [line];
        rest := OtherLines(rest);
        line := BeforeHash(line);
        var s := SkipSpaces(line);
        var key := Word(s);
        if key != "" {
          values := values[key := Word(SkipSpaces(s[|key|..]))];
        }
      }
      NoLinesYet(values, rest);
      assert done + [] == done;
    }

    method LoadOverrides(w: Surroundings)
      modifies this
      ensures values == Layered(old(values), w)
    {
      Override(USERNAME, w.Secret(Lookup(values, USERNAME_FILE)));
      Override(PASSWORD, w.Secret(Lookup(values, PASSWORD_FILE)));
      Override(USERNAME, w.Secret(w.Env("SCASTD_USERNAME_FILE")));
      Override(PASSWORD, w.Secret(w.Env("SCASTD_PASSWORD_FILE")));
      Override(USERNAME, w.Env("SCASTD_USERNAME"));
      Override(PASSWORD, w.Env("SCASTD_PASSWORD"));
      var env := w.Env("ICEADMINUSER");
      if env.None? {
        env := w.Env("SCASTD_ADMINUSER");
      }
      Override(ADMIN_USER, env);
      env := w.Env("ICEUSERPASS");
      if env.None? {
        env := w.Env("SCASTD_USERPASS");
      }
      Override(USER_PASS, env);
      Override(THREADS, w.Env("SCASTD_THREAD_COUNT"));
      Override(CORES, w.Env("SCASTD_CPU_CORES"));
      Override(MEMORY, w.Env("SCASTD_MEMORY_LIMIT"));
      hide Lookup, Layer, Surroundings.Env, Surroundings.Secret;
    }

    /** `s` is compared before `hr`, each letter in either case. */
    method GetDuration(key: string, defaultMs: int) returns (ms: Option<int>)
      ensures ms == if key in values then InMillis(values[key], defaultMs) else Some(defaultMs)
    {
      if key !in values {
        return Some(defaultMs);
      }
      var lower := Lower(values[key]);
      hide EndsIn, EndsInTwo, Lower, Stoi;
      var multiplier := 1;
      var number := lower;
      if EndsInTwo(lower, 'm', 's') {
        number := lower[..|lower| - 2];
      } else if EndsIn(lower, 's') {
        multiplier := 1000;
        number := lower[..|lower| - 1];
      } else if EndsIn(lower, 'm') {
        multiplier := 60 * 1000;
        number := lower[..|lower| - 1];
      } else if EndsInTwo(lower, 'h', 'r') {
        multiplier := 60 * 60 * 1000;
        number := lower[..|lower| - 2];
      } else if EndsIn(lower, 'h') {
        multiplier := 60 * 60 * 1000;
        number := lower[..|lower| - 1];
      }
      assert lower[..|lower|] == lower;
      assert number == NumberText(lower) && multiplier == Factor(UnitOf(lower));
      var base := Stoi(number);
      if base.None? {
        ms := Some(defaultMs);
      } else {
        var product := base.value * multiplier;
        ms := if FitsInt(product) then Some(product) else None;
      }
    }
  }
}
