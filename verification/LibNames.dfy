/** The names of the table groups: which edge and which kind of table each one stands for
    (table_opts in the reader, table_model_names in the writer). */
module LibNames {
  import opened AxisLookup

  /** The tables of a timing group. */
  datatype Model =
    | CellRise | CellFall | PropagationRise | PropagationFall
    | TransitionRise | TransitionFall | ConstraintRise | ConstraintFall

  /** The writer's group names. */
  function WrittenName(m: Model): string {
    match m
    case CellRise => "cell_rise"
    case CellFall => "cell_fall"
    case PropagationRise => "propagation_rise"
    case PropagationFall => "propagation_fall"
    case TransitionRise => "transition_rise"
    case TransitionFall => "transition_fall"
    case ConstraintRise => "constraint_rise"
    case ConstraintFall => "constraint_fall"
  }

  /** The reader's group names. */
  function ReaderModel(name: string): Option<Model> {
    if name == "cell_fall" then Some(CellFall)
    else if name == "cell_rise" then Some(CellRise)
    else if name == "fall_constraint" then Some(ConstraintFall)
    else if name == "fall_propagation" then Some(PropagationFall)
    else if name == "fall_transition" then Some(TransitionFall)
    else if name == "rise_constraint" then Some(ConstraintRise)
    else if name == "rise_propagation" then Some(PropagationRise)
    else if name == "rise_transition" then Some(TransitionRise)
    else None
  }

  datatype Edge = Rise | Fall

  datatype Kind = Cell | Propagation | Transition | Constraint

  function EdgeOf(m: Model): Edge {
    match m
    case CellRise => Rise
    case CellFall => Fall
    case PropagationRise => Rise
    case PropagationFall => Fall
    case TransitionRise => Rise
    case TransitionFall => Fall
    case ConstraintRise => Rise
    case ConstraintFall => Fall
  }

  function KindOf(m: Model): Kind {
    match m
    case CellRise => Cell
    case CellFall => Cell
    case PropagationRise => Propagation
    case PropagationFall => Propagation
    case TransitionRise => Transition
    case TransitionFall => Transition
    case ConstraintRise => Constraint
    case ConstraintFall => Constraint
  }

  function EdgeWord(e: Edge): string {
    match e
    case Rise => "rise"
    case Fall => "fall"
  }

  function KindWord(k: Kind): string {
    match k
    case Cell => "cell"
    case Propagation => "propagation"
    case Transition => "transition"
    case Constraint => "constraint"
  }

  /** The name that the reader knows a model by: the cell tables have the edge last, the others first. */
  function ReadName(m: Model): string {
    match m
    case CellRise => "cell_rise"
    case CellFall => "cell_fall"
    case PropagationRise => "rise_propagation"
    case PropagationFall => "fall_propagation"
    case TransitionRise => "rise_transition"
    case TransitionFall => "fall_transition"
    case ConstraintRise => "rise_constraint"
    case ConstraintFall => "fall_constraint"
  }

  predicate OccursAt(s: string, word: string, i: int) {
    0 <= i && i + |word| <= |s| && s[i..i + |word|] == word
  }

  ghost predicate Contains(s: string, word: string) {
    exists i: int :: OccursAt(s, word, i)
  }

  /** The names that the reader knows. */
  lemma {:induction false} ReaderNames()
    ensures ReaderModel("cell_rise") == Some(CellRise) && ReaderModel("cell_fall") == Some(CellFall)
    ensures ReaderModel("rise_propagation") == Some(PropagationRise) && ReaderModel("fall_propagation") == Some(PropagationFall)
    ensures ReaderModel("rise_transition") == Some(TransitionRise) && ReaderModel("fall_transition") == Some(TransitionFall)
    ensures ReaderModel("rise_constraint") == Some(ConstraintRise) && ReaderModel("fall_constraint") == Some(ConstraintFall)
  {
    assert "cell_rise"[5] == 'r' && "cell_fall"[5] == 'f';
    assert "rise_transition"[5] == 't' && "rise_constraint"[5] == 'c' && "rise_transition"[0] == 'r' && "rise_constraint"[0] == 'r';
    assert "fall_transition"[5] == 't' && "fall_constraint"[5] == 'c' && "fall_transition"[0] == 'f' && "fall_constraint"[0] == 'f';
    assert "fall_propagation"[0] == 'f' && "rise_propagation"[0] == 'r';
  }

  /** Each model has one name, and no other name has a model. */
  lemma {:induction false} ReaderModelIff(name: string, m: Model)
    ensures ReaderModel(name) == Some(m) <==> name == ReadName(m)
  {
    ReaderNames();
  }

  // Where a word occurs its first two letters stand.
  lemma {:induction false} FirstLetters(s: string, word: string, i: int)
    requires OccursAt(s, word, i) && |word| >= 2
    ensures 0 <= i < |s| - 1 && s[i] == word[0] && s[i + 1] == word[1]
  {
    assert s[i..i + |word|][0] == s[i] && s[i..i + |word|][1] == s[i + 1];
  }

  lemma {:induction false} OwnEdge(m: Model)
    ensures Contains(ReadName(m), EdgeWord(EdgeOf(m)))
  {
    assert OccursAt(ReadName(m), EdgeWord(EdgeOf(m)), if KindOf(m) == Cell then 5 else 0);
  }

  lemma {:induction false} OwnKind(m: Model)
    ensures Contains(ReadName(m), KindWord(KindOf(m)))
  {
    if KindOf(m) == Cell {
      assert OccursAt(ReadName(m), "cell", 0);
    } else {
      LaterKind(m);
    }
  }

  lemma {:induction false} LaterKind(m: Model)
    requires KindOf(m) != Cell
    ensures OccursAt(ReadName(m), KindWord(KindOf(m)), 5)
  {
    var s, w := ReadName(m), KindWord(KindOf(m));
    assert |s| == 5 + |w|;
    forall i | 0 <= i < |w| ensures s[5..5 + |w|][i] == w[i] {
      SameLetter(m, i);
    }
  }

  lemma {:induction false} SameLetter(m: Model, i: nat)
    requires KindOf(m) != Cell && i < |KindWord(KindOf(m))|
    ensures |ReadName(m)| == 5 + |KindWord(KindOf(m))| && ReadName(m)[5 + i] == KindWord(KindOf(m))[i]
  {
  }

  lemma {:induction false} NoRise(m: Model, i: int)
    requires EdgeOf(m) != Rise
    ensures !OccursAt(ReadName(m), "rise", i)
  {
    if OccursAt(ReadName(m), "rise", i) {
      FirstLetters(ReadName(m), "rise", i);
      hide OccursAt;
    }
  }

  lemma {:induction false} NoFall(m: Model, i: int)
    requires EdgeOf(m) != Fall
    ensures !OccursAt(ReadName(m), "fall", i)
  {
    if OccursAt(ReadName(m), "fall", i) {
      FirstLetters(ReadName(m), "fall", i);
      hide OccursAt;
    }
  }

  lemma {:induction false} NoCell(m: Model, i: int)
    requires KindOf(m) != Cell
    ensures !OccursAt(ReadName(m), "cell", i)
  {
    if OccursAt(ReadName(m), "cell", i) {
      FirstLetters(ReadName(m), "cell", i);
      hide OccursAt;
    }
  }

  lemma {:induction false} NoPropagation(m: Model, i: int)
    requires KindOf(m) != Propagation
    ensures !OccursAt(ReadName(m), "propagation", i)
  {
    if OccursAt(ReadName(m), "propagation", i) {
      FirstLetters(ReadName(m), "propagation", i);
      hide OccursAt;
    }
  }

  lemma {:induction false} NoTransition(m: Model, i: int)
    requires KindOf(m) != Transition
    ensures !OccursAt(ReadName(m), "transition", i)
  {
    if OccursAt(ReadName(m), "transition", i) {
      FirstLetters(ReadName(m), "transition", i);
      hide OccursAt;
    }
  }

  lemma {:induction false} NoConstraint(m: Model, i: int)
    requires KindOf(m) != Constraint
    ensures !OccursAt(ReadName(m), "constraint", i)
  {
    if OccursAt(ReadName(m), "constraint", i) {
      FirstLetters(ReadName(m), "constraint", i);
      hide OccursAt;
    }
  }

  /** What the name says of the model: its edge and its kind are the words in it. */
  ghost predicate NameSays(name: string, m: Model) {
    && (Contains(name, "rise") <==> EdgeOf(m) == Rise) && (Contains(name, "fall") <==> EdgeOf(m) == Fall)
    && (Contains(name, "cell") <==> KindOf(m) == Cell) && (Contains(name, "propagation") <==> KindOf(m) == Propagation)
    && (Contains(name, "transition") <==> KindOf(m) == Transition) && (Contains(name, "constraint") <==> KindOf(m) == Constraint)
  }

  lemma {:induction false} NameSaysModel(m: Model)
    ensures NameSays(ReadName(m), m)
  {
    OwnEdge(m);
    OwnKind(m);
    hide ReadName, OccursAt;
    forall i: int
      ensures EdgeOf(m) != Rise ==> !OccursAt(ReadName(m), "rise", i)
      ensures EdgeOf(m) != Fall ==> !OccursAt(ReadName(m), "fall", i)
    {
      if EdgeOf(m) != Rise {
        NoRise(m, i);
      } else {
        NoFall(m, i);
      }
    }
    forall i: int
      ensures KindOf(m) != Cell ==> !OccursAt(ReadName(m), "cell", i)
      ensures KindOf(m) != Propagation ==> !OccursAt(ReadName(m), "propagation", i)
      ensures KindOf(m) != Transition ==> !OccursAt(ReadName(m), "transition", i)
      ensures KindOf(m) != Constraint ==> !OccursAt(ReadName(m), "constraint", i)
    {
      if KindOf(m) != Cell {
        NoCell(m, i);
      }
      if KindOf(m) != Propagation {
        NoPropagation(m, i);
      }
      if KindOf(m) != Transition {
        NoTransition(m, i);
      }
      if KindOf(m) != Constraint {
        NoConstraint(m, i);
      }
    }
  }

  /** The reader takes a name for a model only if the name has the model's edge and kind in it. */
  lemma {:induction false} ReaderModelSays(name: string)
    ensures ReaderModel(name).Some? ==> NameSays(name, ReaderModel(name).value)
  {
    hide NameSays;
    if ReaderModel(name).Some? {
      ReaderModelIff(name, ReaderModel(name).value);
      NameSaysModel(ReaderModel(name).value);
    }
  }

  /** The writer puts the kind first in all eight names. */
  lemma {:induction false} WrittenNames(m: Model)
    ensures WrittenName(m) == KindWord(KindOf(m)) + "_" + EdgeWord(EdgeOf(m))
  {
    match KindOf(m)
    case Cell =>
    case Propagation => assert WrittenName(m) == "propagation_" + EdgeWord(EdgeOf(m));
    case Transition => assert WrittenName(m) == "transition_" + EdgeWord(EdgeOf(m));
    case Constraint => assert WrittenName(m) == "constraint_" + EdgeWord(EdgeOf(m));
  }
}
