/** Isolate's own options: how the code writes them and how a command that holds them reads. */
module Switches {
  import opened Base

  datatype Switch =
    | BoxId | Environment | Processes | Memory | WallLimit | Stdin | Stdout | Stderr | Directory | MetaFile

  function NameOf(switch: Switch): string {
    match switch
    case BoxId => "box-id"
    case Environment => "env"
    case Processes => "processes"
    case Memory => "mem"
    case WallLimit => "wall-time"
    case Stdin => "stdin"
    case Stdout => "stdout"
    case Stderr => "stderr"
    case Directory => "dir"
    case MetaFile => "meta"
  }

  type Options = seq<(Switch, string)>

  function Render(options: Options): (tokens: seq<string>)
    ensures |tokens| == |options|
    ensures forall i :: 0 <= i < |tokens| ==> tokens[i] == Assign(NameOf(options[i].0), options[i].1)
  {
    seq(|options|, i requires 0 <= i < |options| => Assign(NameOf(options[i].0), options[i].1))
  }

  function Assign(name: string, value: string): string {
    "--" + name + "=" + value
  }

  // ---------- reading a command ----------

  predicate IsSwitch(token: string, name: string) {
    "--" + name + "=" <= token
  }

  /** The value of the first token that assigns `name`. */
  function ReadSwitch(tokens: seq<string>, name: string): Option<string> {
    if tokens == [] then None
    else if IsSwitch(tokens[0], name) then Some(tokens[0][|name| + 3..])
    else ReadSwitch(tokens[1..], name)
  }

  /** Exactly one token assigns `name`, and it gives it this value. */
  ghost predicate Tells(tokens: seq<string>, name: string, value: string) {
    exists k :: TellsAt(tokens, name, value, k)
  }

  ghost predicate TellsAt(tokens: seq<string>, name: string, value: string, k: int) {
    && 0 <= k < |tokens| && tokens[k] == "--" + name + "=" + value
    && forall j :: 0 <= j < |tokens| && j != k ==> !IsSwitch(tokens[j], name)
  }

  /** No token assigns `name`. */
  ghost predicate Silent(tokens: seq<string>, name: string) {
    forall j :: 0 <= j < |tokens| ==> !IsSwitch(tokens[j], name)
  }

  ghost predicate TellsNumber(tokens: seq<string>, name: string, number: int) {
    exists value :: Tells(tokens, name, value) && NumberOf(value) == Some(number)
  }

  lemma AssignIsSwitch(name: string, value: string)
    ensures IsSwitch(Assign(name, value), name) && Assign(name, value)[|name| + 3..] == value
    ensures Assign(name, value)[0] == '-' && '=' in Assign(name, value)
  {
    assert Assign(name, value)[|name| + 2] == '=';
  }

  lemma {:induction false} TellsReads(tokens: seq<string>, name: string, value: string, k: int)
    requires TellsAt(tokens, name, value, k)
    ensures ReadSwitch(tokens, name) == Some(value)
  {
    hide IsSwitch;
    AssignIsSwitch(name, value);
    if k > 0 {
      assert tokens[1..][k - 1] == tokens[k];
      assert TellsAt(tokens[1..], name, value, k - 1);
      TellsReads(tokens[1..], name, value, k - 1);
    }
  }

  lemma SwitchesApart(name: string, value: string, other: string)
    requires '=' !in name && '=' !in other && IsSwitch(Assign(name, value), other)
    ensures name == other
  {
    var a, b := Assign(name, value), "--" + other + "=";
    assert a[|name| + 2] == '=' && b[|other| + 2] == '=';
    assert forall i :: 0 <= i < |b| ==> a[i] == b[i];
    assert |name| == |other|;
    forall i | 0 <= i < |name| ensures name[i] == other[i] {
      assert a[i + 2] == name[i] && b[i + 2] == other[i];
    }
  }

  lemma NamesArePlain(switch: Switch)
    ensures '=' !in NameOf(switch)
  {
  }

  lemma NamesAreDistinct(a: Switch, b: Switch)
    requires NameOf(a) == NameOf(b)
    ensures a == b
  {
    assert |NameOf(a)| == |NameOf(b)| && NameOf(a)[0] == NameOf(b)[0];
    assert |NameOf(a)| == 6 ==> NameOf(a)[3] == NameOf(b)[3];
  }

  /** An option list that sets a switch once tells its value. */
  lemma RenderTells(options: Options, k: nat, rest: seq<string>)
    requires k < |options| && forall j :: 0 <= j < |options| && j != k ==> options[j].0 != options[k].0
    requires forall j :: 0 <= j < |rest| ==> IsBare(rest[j])
    ensures TellsAt(Render(options) + rest, NameOf(options[k].0), options[k].1, k)
    ensures Tells(Render(options) + rest, NameOf(options[k].0), options[k].1)
  {
    hide Render, IsSwitch, NameOf, IsBare;
    var name, tokens := NameOf(options[k].0), Render(options) + rest;
    forall j | 0 <= j < |tokens| && j != k ensures !IsSwitch(tokens[j], name) {
      if j < |options| {
        OtherSwitch(options[j].0, options[j].1, options[k].0);
      } else {
        BareIsNoSwitch(rest[j - |options|], name);
      }
    }
    assert tokens[k] == Assign(name, options[k].1);
  }

  lemma RenderSilent(options: Options, switch: Switch, rest: seq<string>)
    requires forall j :: 0 <= j < |options| ==> options[j].0 != switch
    requires forall j :: 0 <= j < |rest| ==> IsBare(rest[j])
    ensures Silent(Render(options) + rest, NameOf(switch))
  {
    hide Render, IsSwitch, NameOf, IsBare;
    var tokens := Render(options) + rest;
    forall j | 0 <= j < |tokens| ensures !IsSwitch(tokens[j], NameOf(switch)) {
      if j < |options| {
        OtherSwitch(options[j].0, options[j].1, switch);
      } else {
        BareIsNoSwitch(rest[j - |options|], NameOf(switch));
      }
    }
  }

  lemma OtherSwitch(a: Switch, value: string, b: Switch)
    requires a != b
    ensures !IsSwitch(Assign(NameOf(a), value), NameOf(b))
  {
    hide NameOf, IsSwitch;
    NamesArePlain(a);
    NamesArePlain(b);
    if IsSwitch(Assign(NameOf(a), value), NameOf(b)) {
      SwitchesApart(NameOf(a), value, NameOf(b));
      NamesAreDistinct(a, b);
    }
  }

  /** A token that cannot be taken for an assignment. */
  predicate IsBare(token: string) {
    |token| < 2 || token[0] != '-' || token[1] != '-' || '=' !in token
  }

  lemma BareIsNoSwitch(token: string, name: string)
    requires IsBare(token)
    ensures !IsSwitch(token, name)
  {
    var start := "--" + name + "=";
    assert start[0] == '-' && start[1] == '-' && start[|name| + 2] == '=';
  }

  lemma RenderJoins(a: Options, b: Options)
    ensures Render(a + b) == Render(a) + Render(b)
  {
  }

  /** No option is the mark `--run`: an assignment holds an equals sign. */
  lemma RenderHasNoMark(options: Options, mark: string)
    requires '=' !in mark
    ensures mark !in Render(options)
  {
    hide NameOf;
    forall i | 0 <= i < |options| ensures Render(options)[i] != mark {
      AssignIsSwitch(NameOf(options[i].0), options[i].1);
    }
  }
}
