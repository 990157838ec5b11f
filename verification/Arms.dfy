/**
 `resolve_architecture_arms`, and the text a resolved condition hands it
 (`ConditionResolution.architecture_spec`).
 */
module Arms {
  import opened Basics
  import opened Text

  /** The tools enforced for one run, and the label of a named combination. */
  datatype Arm = Arm(architectures: seq<string>, combinationKey: Option<string>)

  /** `architecture_spec`; nothing for an unrealizable condition. */
  function ArchitectureSpec(architectures: seq<string>): Option<string> {
    if architectures == [] then None else Some(Join(',', architectures))
  }

  function SingleArms(available: seq<string>): seq<Arm> {
    if available == [] then [] else [Arm([available[0]], None)] + SingleArms(available[1..])
  }

  /** The non-empty stripped parts. */
  function Parts(pieces: seq<string>): seq<string> {
    if pieces == [] then []
    else (if Strip(pieces[0]) == "" then [] else [Strip(pieces[0])]) + Parts(pieces[1..])
  }

  /** `named` maps each reserved combination key to its architectures. */
  function ResolveArms(spec: string, named: map<string, seq<string>>, available: seq<string>): seq<Arm> {
    var text := Strip(spec);
    if text == "all" then SingleArms(available)
    else if text in named then (if SetOf(named[text]) <= SetOf(available) then [Arm(named[text], Some(text))] else [])
    else
      var parts := Parts(Split(',', text));
      if parts == [] || !(SetOf(parts) <= SetOf(available)) then [] else [Arm(parts, None)]
  }

  lemma {:induction false} PartsTrimmed(pieces: seq<string>)
    requires forall p :: p in pieces ==> p != "" && Trimmed(p)
    ensures Parts(pieces) == pieces
  {
    if pieces != [] {
      assert forall p :: p in pieces[1..] ==> p in pieces;
      StripTrimmed(pieces[0]);
      PartsTrimmed(pieces[1..]);
    }
  }

  lemma {:induction false} SingleArmsAre(available: seq<string>, only: string)
    ensures SingleArms(available) == [Arm([only], None)] <==> available == [only]
  {
    if available != [] {
      assert SingleArms(available)[0] == Arm([available[0]], None);
      assert [available[0]][0] == available[0] && [only][0] == only;
      assert SingleArms(available)[1..] == SingleArms(available[1..]);
      if available[1..] != [] {
        assert SingleArms(available[1..])[0] == Arm([available[1]], None);
      }
    }
  }

  lemma OnlyAll(architectures: seq<string>)
    requires architectures != [] && (forall a :: a in architectures ==> ',' !in a) && Join(',', architectures) == "all"
    ensures architectures == ["all"]
  {
    SplitInvertsJoin(',', architectures);
    SplitHead(',', "all", "");
  }

  /** Neither a combination key nor the keyword, unless "all" is the one architecture available. */
  predicate Unreserved(spec: string, named: map<string, seq<string>>, available: seq<string>) {
    if spec == "all" then available == ["all"] else spec !in named
  }

  /**
   A resolved choice survives being written as a spec and read back exactly when the text is not reserved.
   */
  lemma SpecRoundTrip(architectures: seq<string>, named: map<string, seq<string>>, available: seq<string>)
    requires architectures != [] && SetOf(architectures) <= SetOf(available)
    requires forall a :: a in architectures ==> a != "" && Trimmed(a) && ',' !in a
    ensures ArchitectureSpec(architectures).Some?
    ensures var spec := ArchitectureSpec(architectures).value;
            ResolveArms(spec, named, available) == [Arm(architectures, None)] <==> Unreserved(spec, named, available)
  {
    var spec := Join(',', architectures);
    JoinTrimmed(',', architectures);
    StripTrimmed(spec);
    SplitInvertsJoin(',', architectures);
    PartsTrimmed(architectures);
    if spec == "all" {
      OnlyAll(architectures);
      SingleArmsAre(available, "all");
    }
  }

  /** Whatever the spec, an arm only ever uses architectures the task declares. */
  lemma {:induction false} ArmsAreAvailable(spec: string, named: map<string, seq<string>>, available: seq<string>,
                                            arm: Arm)
    requires arm in ResolveArms(spec, named, available)
    ensures SetOf(arm.architectures) <= SetOf(available)
  {
    if Strip(spec) == "all" {
      SingleArmsAvailable(available, arm);
    }
  }

  lemma {:induction false} SingleArmsAvailable(available: seq<string>, arm: Arm)
    requires arm in SingleArms(available)
    ensures SetOf(arm.architectures) <= SetOf(available)
  {
    if arm in SingleArms(available[1..]) {
      SingleArmsAvailable(available[1..], arm);
      assert forall x :: x in available[1..] ==> x in available;
    } else {
      assert arm.architectures == [available[0]];
    }
  }
}
