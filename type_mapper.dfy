/** The two-way table between Health Connect exercise-type codes and display
    names (data/mapper/ExerciseTypeMapper.kt). A code is the value of the
    library constant `ExerciseSessionRecord.EXERCISE_TYPE_*` the table names. */
module TypeMapper {
  import opened Results
  import opened Sorting

  /** The name `toName` gives a code outside the table. */
  const UnknownExercise: string := "Unknown Exercise"

  /** The number of entries of `exerciseTypeMap`. */
  const TableSize := 58

  /** The k-th entry of `exerciseTypeMap`, in declaration order (laid out as
      a search tree on k). */
  function Entry(k: int): (int, string)
    requires 0 <= k < TableSize
  {
    if k < 29 then
      if k < 14 then
        if k < 7 then
          if k < 3 then
            if k < 1 then
              (2, "Badminton")
            else
              if k == 1 then (4, "Baseball") else (5, "Basketball")
          else
            if k < 5 then
              if k == 3 then (8, "Biking") else (9, "Stationary Biking")
            else
              if k == 5 then (10, "Boot Camp") else (11, "Boxing")
        else
          if k < 10 then
            if k < 8 then
              (13, "Calisthenics")
            else
              if k == 8 then (14, "Cricket") else (16, "Dancing")
          else
            if k < 12 then
              if k == 10 then (25, "Elliptical") else (27, "Fencing")
            else
              if k == 12 then (31, "Frisbee") else (28, "Football (American)")
      else
        if k < 21 then
          if k < 17 then
            if k < 15 then
              (29, "Football (Australian)")
            else
              if k == 15 then (32, "Golf") else (33, "Guided Breathing")
          else
            if k < 19 then
              if k == 17 then (34, "Gymnastics") else (35, "Handball")
            else
              if k == 19 then (36, "HIIT") else (37, "Hiking")
        else
          if k < 25 then
            if k < 23 then
              if k == 21 then (38, "Ice Hockey") else (39, "Ice Skating")
            else
              if k == 23 then (44, "Martial Arts") else (46, "Paddling")
          else
            if k < 27 then
              if k == 25 then (47, "Paragliding") else (48, "Pilates")
            else
              if k == 27 then (50, "Racquetball") else (51, "Rock Climbing")
    else
      if k < 43 then
        if k < 36 then
          if k < 32 then
            if k < 30 then
              (53, "Rowing")
            else
              if k == 30 then (54, "Rowing Machine") else (55, "Rugby")
          else
            if k < 34 then
              if k == 32 then (56, "Running") else (57, "Treadmill Running")
            else
              if k == 34 then (58, "Sailing") else (59, "Scuba Diving")
        else
          if k < 39 then
            if k < 37 then
              (60, "Skating")
            else
              if k == 37 then (61, "Skiing") else (62, "Snowboarding")
          else
            if k < 41 then
              if k == 39 then (63, "Snowshoeing") else (64, "Soccer")
            else
              if k == 41 then (65, "Softball") else (66, "Squash")
      else
        if k < 50 then
          if k < 46 then
            if k < 44 then
              (68, "Stair Climbing")
            else
              if k == 44 then (69, "Stair Climbing Machine") else (70, "Strength Training")
          else
            if k < 48 then
              if k == 46 then (71, "Stretching") else (72, "Surfing")
            else
              if k == 48 then (73, "Swimming (Open Water)") else (74, "Swimming (Pool)")
        else
          if k < 54 then
            if k < 52 then
              if k == 50 then (75, "Table Tennis") else (76, "Tennis")
            else
              if k == 52 then (78, "Volleyball") else (79, "Walking")
          else
            if k < 56 then
              if k == 54 then (80, "Water Polo") else (81, "Weightlifting")
            else
              if k == 56 then (82, "Wheelchair") else (83, "Yoga")
  }

  /** Where the entry for code `t` sits in the table, if it has one (laid out
      as a search tree on the code). */
  function Position(t: int): Option<int> {
    if t < 53 then
      if t < 31 then
        if t < 13 then
          if t < 8 then
            if t < 4 then
              if t == 2 then Some(0) else None
            else
              if t == 4 then Some(1) else if t == 5 then Some(2) else None
          else
            if t < 10 then
              if t == 8 then Some(3) else if t == 9 then Some(4) else None
            else
              if t == 10 then Some(5) else if t == 11 then Some(6) else None
        else
          if t < 25 then
            if t < 14 then
              if t == 13 then Some(7) else None
            else
              if t == 14 then Some(8) else if t == 16 then Some(9) else None
          else
            if t < 28 then
              if t == 25 then Some(10) else if t == 27 then Some(11) else None
            else
              if t == 28 then Some(13) else if t == 29 then Some(14) else None
      else
        if t < 38 then
          if t < 34 then
            if t < 32 then
              if t == 31 then Some(12) else None
            else
              if t == 32 then Some(15) else if t == 33 then Some(16) else None
          else
            if t < 36 then
              if t == 34 then Some(17) else if t == 35 then Some(18) else None
            else
              if t == 36 then Some(19) else if t == 37 then Some(20) else None
        else
          if t < 47 then
            if t < 44 then
              if t == 38 then Some(21) else if t == 39 then Some(22) else None
            else
              if t == 44 then Some(23) else if t == 46 then Some(24) else None
          else
            if t < 50 then
              if t == 47 then Some(25) else if t == 48 then Some(26) else None
            else
              if t == 50 then Some(27) else if t == 51 then Some(28) else None
    else
      if t < 68 then
        if t < 60 then
          if t < 56 then
            if t < 54 then
              if t == 53 then Some(29) else None
            else
              if t == 54 then Some(30) else if t == 55 then Some(31) else None
          else
            if t < 58 then
              if t == 56 then Some(32) else if t == 57 then Some(33) else None
            else
              if t == 58 then Some(34) else if t == 59 then Some(35) else None
        else
          if t < 63 then
            if t < 61 then
              if t == 60 then Some(36) else None
            else
              if t == 61 then Some(37) else if t == 62 then Some(38) else None
          else
            if t < 65 then
              if t == 63 then Some(39) else if t == 64 then Some(40) else None
            else
              if t == 65 then Some(41) else if t == 66 then Some(42) else None
      else
        if t < 75 then
          if t < 71 then
            if t < 69 then
              if t == 68 then Some(43) else None
            else
              if t == 69 then Some(44) else if t == 70 then Some(45) else None
          else
            if t < 73 then
              if t == 71 then Some(46) else if t == 72 then Some(47) else None
            else
              if t == 73 then Some(48) else if t == 74 then Some(49) else None
        else
          if t < 80 then
            if t < 78 then
              if t == 75 then Some(50) else if t == 76 then Some(51) else None
            else
              if t == 78 then Some(52) else if t == 79 then Some(53) else None
          else
            if t < 82 then
              if t == 80 then Some(54) else if t == 81 then Some(55) else None
            else
              if t == 82 then Some(56) else if t == 83 then Some(57) else None
  }

  /** `exerciseTypeMap[t]`: the name of the entry whose code is `t`. */
  function ExerciseTypeMap(t: int): Option<string> {
    match Position(t)
    case Some(k) => if 0 <= k < TableSize && Entry(k).0 == t then Some(Entry(k).1) else None
    case None => None
  }

  /** `exerciseTypeMap.values`, in declaration order. */
  function TableNames(): seq<string> {
    seq(TableSize, k requires 0 <= k < TableSize => Entry(k).1)
  }

  /** `reverseExerciseTypeMap[n]`, the table read from name to code; laid out
      by the name's length and then character by character. */
  function ReverseExerciseTypeMap(n: string): Option<int> {
    match |n|
    case 4 => CodeOfName4(n)
    case 5 => CodeOfName5(n)
    case 6 => CodeOfName6(n)
    case 7 => CodeOfName7(n)
    case 8 => CodeOfName8(n)
    case 9 => CodeOfName9(n)
    case 10 => CodeOfName10(n)
    case 11 => CodeOfName11(n)
    case 12 => CodeOfName12(n)
    case 13 => CodeOfName13(n)
    case 14 => CodeOfName14(n)
    case 15 => CodeOfName15(n)
    case 16 => CodeOfName16(n)
    case 17 => CodeOfName17(n)
    case 19 => CodeOfName19(n)
    case 21 => CodeOfName21(n)
    case 22 => CodeOfName22(n)
    case _ => None
  }

  function CodeOfName4(n: string): Option<int>
    requires |n| == 4
  {
    (match n[0]
    case 'G' => if n == "Golf" then Some(32) else None
    case 'H' => if n == "HIIT" then Some(36) else None
    case 'Y' => if n == "Yoga" then Some(83) else None
    case _ => None)
  }

  function CodeOfName5(n: string): Option<int>
    requires |n| == 5
  {
    if n == "Rugby" then Some(55) else None
  }

  function CodeOfName6(n: string): Option<int>
    requires |n| == 6
  {
    (match n[0]
    case 'B' => (match n[1]
      case 'i' => if n == "Biking" then Some(8) else None
      case 'o' => if n == "Boxing" then Some(11) else None
      case _ => None)
    case 'H' => if n == "Hiking" then Some(37) else None
    case 'R' => if n == "Rowing" then Some(53) else None
    case 'S' => (match n[1]
      case 'k' => if n == "Skiing" then Some(61) else None
      case 'o' => if n == "Soccer" then Some(64) else None
      case 'q' => if n == "Squash" then Some(66) else None
      case _ => None)
    case 'T' => if n == "Tennis" then Some(76) else None
    case _ => None)
  }

  function CodeOfName7(n: string): Option<int>
    requires |n| == 7
  {
    (match n[0]
    case 'C' => if n == "Cricket" then Some(14) else None
    case 'D' => if n == "Dancing" then Some(16) else None
    case 'F' => (match n[1]
      case 'e' => if n == "Fencing" then Some(27) else None
      case 'r' => if n == "Frisbee" then Some(31) else None
      case _ => None)
    case 'P' => if n == "Pilates" then Some(48) else None
    case 'R' => if n == "Running" then Some(56) else None
    case 'S' => (match n[1]
      case 'a' => if n == "Sailing" then Some(58) else None
      case 'k' => if n == "Skating" then Some(60) else None
      case 'u' => if n == "Surfing" then Some(72) else None
      case _ => None)
    case 'W' => if n == "Walking" then Some(79) else None
    case _ => None)
  }

  function CodeOfName8(n: string): Option<int>
    requires |n| == 8
  {
    (match n[0]
    case 'B' => if n == "Baseball" then Some(4) else None
    case 'H' => if n == "Handball" then Some(35) else None
    case 'P' => if n == "Paddling" then Some(46) else None
    case 'S' => if n == "Softball" then Some(65) else None
    case _ => None)
  }

  function CodeOfName9(n: string): Option<int>
    requires |n| == 9
  {
    (match n[0]
    case 'B' => (match n[1]
      case 'a' => if n == "Badminton" then Some(2) else None
      case 'o' => if n == "Boot Camp" then Some(10) else None
      case _ => None)
    case _ => None)
  }

  function CodeOfName10(n: string): Option<int>
    requires |n| == 10
  {
    (match n[0]
    case 'B' => if n == "Basketball" then Some(5) else None
    case 'E' => if n == "Elliptical" then Some(25) else None
    case 'G' => if n == "Gymnastics" then Some(34) else None
    case 'I' => if n == "Ice Hockey" then Some(38) else None
    case 'S' => if n == "Stretching" then Some(71) else None
    case 'V' => if n == "Volleyball" then Some(78) else None
    case 'W' => (match n[1]
      case 'a' => if n == "Water Polo" then Some(80) else None
      case 'h' => if n == "Wheelchair" then Some(82) else None
      case _ => None)
    case _ => None)
  }

  function CodeOfName11(n: string): Option<int>
    requires |n| == 11
  {
    (match n[0]
    case 'I' => if n == "Ice Skating" then Some(39) else None
    case 'P' => if n == "Paragliding" then Some(47) else None
    case 'R' => if n == "Racquetball" then Some(50) else None
    case 'S' => if n == "Snowshoeing" then Some(63) else None
    case _ => None)
  }

  function CodeOfName12(n: string): Option<int>
    requires |n| == 12
  {
    (match n[0]
    case 'C' => if n == "Calisthenics" then Some(13) else None
    case 'M' => if n == "Martial Arts" then Some(44) else None
    case 'S' => (match n[1]
      case 'c' => if n == "Scuba Diving" then Some(59) else None
      case 'n' => if n == "Snowboarding" then Some(62) else None
      case _ => None)
    case 'T' => if n == "Table Tennis" then Some(75) else None
    case _ => None)
  }

  function CodeOfName13(n: string): Option<int>
    requires |n| == 13
  {
    (match n[0]
    case 'R' => if n == "Rock Climbing" then Some(51) else None
    case 'W' => if n == "Weightlifting" then Some(81) else None
    case _ => None)
  }

  function CodeOfName14(n: string): Option<int>
    requires |n| == 14
  {
    (match n[0]
    case 'R' => if n == "Rowing Machine" then Some(54) else None
    case 'S' => if n == "Stair Climbing" then Some(68) else None
    case _ => None)
  }

  function CodeOfName15(n: string): Option<int>
    requires |n| == 15
  {
    if n == "Swimming (Pool)" then Some(74) else None
  }

  function CodeOfName16(n: string): Option<int>
    requires |n| == 16
  {
    if n == "Guided Breathing" then Some(33) else None
  }

  function CodeOfName17(n: string): Option<int>
    requires |n| == 17
  {
    (match n[0]
    case 'S' => (match n[1]
      case 't' => (match n[2]
        case 'a' => if n == "Stationary Biking" then Some(9) else None
        case 'r' => if n == "Strength Training" then Some(70) else None
        case _ => None)
      case _ => None)
    case 'T' => if n == "Treadmill Running" then Some(57) else None
    case _ => None)
  }

  function CodeOfName19(n: string): Option<int>
    requires |n| == 19
  {
    if n == "Football (American)" then Some(28) else None
  }

  function CodeOfName21(n: string): Option<int>
    requires |n| == 21
  {
    (match n[0]
    case 'F' => if n == "Football (Australian)" then Some(29) else None
    case 'S' => if n == "Swimming (Open Water)" then Some(73) else None
    case _ => None)
  }

  function CodeOfName22(n: string): Option<int>
    requires |n| == 22
  {
    if n == "Stair Climbing Machine" then Some(69) else None
  }



  /** `toName`: the table's name for `t`, or the fallback name. */
  function ToName(t: int): string {
    ExerciseTypeMap(t).GetOr(UnknownExercise)
  }

  /** `toId`: the code whose name is exactly `name` (letter case counts). */
  function ToId(name: string): Option<int> {
    ReverseExerciseTypeMap(name)
  }

  lemma Entries0(k: int)
    requires 0 <= k < 6
    ensures Position(Entry(k).0) == Some(k)
    ensures ReverseExerciseTypeMap(Entry(k).1) == Some(Entry(k).0)
  {
    if k == 0 {
      assert ReverseExerciseTypeMap("Badminton") == Some(2);
    } else if k == 1 {
      assert ReverseExerciseTypeMap("Baseball") == Some(4);
    } else if k == 2 {
      assert ReverseExerciseTypeMap("Basketball") == Some(5);
    } else if k == 3 {
      assert ReverseExerciseTypeMap("Biking") == Some(8);
    } else if k == 4 {
      assert ReverseExerciseTypeMap("Stationary Biking") == Some(9);
    } else if k == 5 {
      assert ReverseExerciseTypeMap("Boot Camp") == Some(10);
    }
  }

  lemma Entries6(k: int)
    requires 6 <= k < 12
    ensures Position(Entry(k).0) == Some(k)
    ensures ReverseExerciseTypeMap(Entry(k).1) == Some(Entry(k).0)
  {
    if k == 6 {
      assert ReverseExerciseTypeMap("Boxing") == Some(11);
    } else if k == 7 {
      assert ReverseExerciseTypeMap("Calisthenics") == Some(13);
    } else if k == 8 {
      assert ReverseExerciseTypeMap("Cricket") == Some(14);
    } else if k == 9 {
      assert ReverseExerciseTypeMap("Dancing") == Some(16);
    } else if k == 10 {
      assert ReverseExerciseTypeMap("Elliptical") == Some(25);
    } else if k == 11 {
      assert ReverseExerciseTypeMap("Fencing") == Some(27);
    }
  }

  lemma Entries12(k: int)
    requires 12 <= k < 18
    ensures Position(Entry(k).0) == Some(k)
    ensures ReverseExerciseTypeMap(Entry(k).1) == Some(Entry(k).0)
  {
    if k == 12 {
      assert ReverseExerciseTypeMap("Frisbee") == Some(31);
    } else if k == 13 {
      assert ReverseExerciseTypeMap("Football (American)") == Some(28);
    } else if k == 14 {
      assert ReverseExerciseTypeMap("Football (Australian)") == Some(29);
    } else if k == 15 {
      assert ReverseExerciseTypeMap("Golf") == Some(32);
    } else if k == 16 {
      assert ReverseExerciseTypeMap("Guided Breathing") == Some(33);
    } else if k == 17 {
      assert ReverseExerciseTypeMap("Gymnastics") == Some(34);
    }
  }

  lemma Entries18(k: int)
    requires 18 <= k < 24
    ensures Position(Entry(k).0) == Some(k)
    ensures ReverseExerciseTypeMap(Entry(k).1) == Some(Entry(k).0)
  {
    if k == 18 {
      assert ReverseExerciseTypeMap("Handball") == Some(35);
    } else if k == 19 {
      assert ReverseExerciseTypeMap("HIIT") == Some(36);
    } else if k == 20 {
      assert ReverseExerciseTypeMap("Hiking") == Some(37);
    } else if k == 21 {
      assert ReverseExerciseTypeMap("Ice Hockey") == Some(38);
    } else if k == 22 {
      assert ReverseExerciseTypeMap("Ice Skating") == Some(39);
    } else if k == 23 {
      assert ReverseExerciseTypeMap("Martial Arts") == Some(44);
    }
  }

  lemma Entries24(k: int)
    requires 24 <= k < 30
    ensures Position(Entry(k).0) == Some(k)
    ensures ReverseExerciseTypeMap(Entry(k).1) == Some(Entry(k).0)
  {
    if k == 24 {
      assert ReverseExerciseTypeMap("Paddling") == Some(46);
    } else if k == 25 {
      assert ReverseExerciseTypeMap("Paragliding") == Some(47);
    } else if k == 26 {
      assert ReverseExerciseTypeMap("Pilates") == Some(48);
    } else if k == 27 {
      assert ReverseExerciseTypeMap("Racquetball") == Some(50);
    } else if k == 28 {
      assert ReverseExerciseTypeMap("Rock Climbing") == Some(51);
    } else if k == 29 {
      assert ReverseExerciseTypeMap("Rowing") == Some(53);
    }
  }

  lemma Entries30(k: int)
    requires 30 <= k < 36
    ensures Position(Entry(k).0) == Some(k)
    ensures ReverseExerciseTypeMap(Entry(k).1) == Some(Entry(k).0)
  {
    if k == 30 {
      assert ReverseExerciseTypeMap("Rowing Machine") == Some(54);
    } else if k == 31 {
      assert ReverseExerciseTypeMap("Rugby") == Some(55);
    } else if k == 32 {
      assert ReverseExerciseTypeMap("Running") == Some(56);
    } else if k == 33 {
      assert ReverseExerciseTypeMap("Treadmill Running") == Some(57);
    } else if k == 34 {
      assert ReverseExerciseTypeMap("Sailing") == Some(58);
    } else if k == 35 {
      assert ReverseExerciseTypeMap("Scuba Diving") == Some(59);
    }
  }

  lemma Entries36(k: int)
    requires 36 <= k < 42
    ensures Position(Entry(k).0) == Some(k)
    ensures ReverseExerciseTypeMap(Entry(k).1) == Some(Entry(k).0)
  {
    if k == 36 {
      assert ReverseExerciseTypeMap("Skating") == Some(60);
    } else if k == 37 {
      assert ReverseExerciseTypeMap("Skiing") == Some(61);
    } else if k == 38 {
      assert ReverseExerciseTypeMap("Snowboarding") == Some(62);
    } else if k == 39 {
      assert ReverseExerciseTypeMap("Snowshoeing") == Some(63);
    } else if k == 40 {
      assert ReverseExerciseTypeMap("Soccer") == Some(64);
    } else if k == 41 {
      assert ReverseExerciseTypeMap("Softball") == Some(65);
    }
  }

  lemma Entries42(k: int)
    requires 42 <= k < 48
    ensures Position(Entry(k).0) == Some(k)
    ensures ReverseExerciseTypeMap(Entry(k).1) == Some(Entry(k).0)
  {
    if k == 42 {
      assert ReverseExerciseTypeMap("Squash") == Some(66);
    } else if k == 43 {
      assert ReverseExerciseTypeMap("Stair Climbing") == Some(68);
    } else if k == 44 {
      assert ReverseExerciseTypeMap("Stair Climbing Machine") == Some(69);
    } else if k == 45 {
      assert ReverseExerciseTypeMap("Strength Training") == Some(70);
    } else if k == 46 {
      assert ReverseExerciseTypeMap("Stretching") == Some(71);
    } else if k == 47 {
      assert ReverseExerciseTypeMap("Surfing") == Some(72);
    }
  }

  lemma Entries48(k: int)
    requires 48 <= k < 54
    ensures Position(Entry(k).0) == Some(k)
    ensures ReverseExerciseTypeMap(Entry(k).1) == Some(Entry(k).0)
  {
    if k == 48 {
      assert ReverseExerciseTypeMap("Swimming (Open Water)") == Some(73);
    } else if k == 49 {
      assert ReverseExerciseTypeMap("Swimming (Pool)") == Some(74);
    } else if k == 50 {
      assert ReverseExerciseTypeMap("Table Tennis") == Some(75);
    } else if k == 51 {
      assert ReverseExerciseTypeMap("Tennis") == Some(76);
    } else if k == 52 {
      assert ReverseExerciseTypeMap("Volleyball") == Some(78);
    } else if k == 53 {
      assert ReverseExerciseTypeMap("Walking") == Some(79);
    }
  }

  lemma Entries54(k: int)
    requires 54 <= k < 58
    ensures Position(Entry(k).0) == Some(k)
    ensures ReverseExerciseTypeMap(Entry(k).1) == Some(Entry(k).0)
  {
    if k == 54 {
      assert ReverseExerciseTypeMap("Water Polo") == Some(80);
    } else if k == 55 {
      assert ReverseExerciseTypeMap("Weightlifting") == Some(81);
    } else if k == 56 {
      assert ReverseExerciseTypeMap("Wheelchair") == Some(82);
    } else if k == 57 {
      assert ReverseExerciseTypeMap("Yoga") == Some(83);
    }
  }

  /** Each entry of the table is found from its code and from its name. */
  lemma EntryFound(k: int)
    requires 0 <= k < TableSize
    ensures Position(Entry(k).0) == Some(k)
    ensures ExerciseTypeMap(Entry(k).0) == Some(Entry(k).1)
    ensures ReverseExerciseTypeMap(Entry(k).1) == Some(Entry(k).0)
  {
    if k < 6 {
      Entries0(k);
    } else if k < 12 {
      Entries6(k);
    } else if k < 18 {
      Entries12(k);
    } else if k < 24 {
      Entries18(k);
    } else if k < 30 {
      Entries24(k);
    } else if k < 36 {
      Entries30(k);
    } else if k < 42 {
      Entries36(k);
    } else if k < 48 {
      Entries42(k);
    } else if k < 54 {
      Entries48(k);
    } else {
      Entries54(k);
    }
  }

  lemma NamesOfLength4(n: string)
    requires |n| == 4 && ReverseExerciseTypeMap(n).Some?
    ensures ExerciseTypeMap(ReverseExerciseTypeMap(n).value) == Some(n)
  {
    var t := ReverseExerciseTypeMap(n).value;
    if t == 32 {
      assert n == "Golf" && ExerciseTypeMap(32) == Some("Golf");
    } else if t == 36 {
      assert n == "HIIT" && ExerciseTypeMap(36) == Some("HIIT");
    } else {
      assert n == "Yoga" && ExerciseTypeMap(83) == Some("Yoga");
    }
  }

  lemma NamesOfLength5(n: string)
    requires |n| == 5 && ReverseExerciseTypeMap(n).Some?
    ensures ExerciseTypeMap(ReverseExerciseTypeMap(n).value) == Some(n)
  {
    assert n == "Rugby";
    assert ExerciseTypeMap(55) == Some("Rugby");
  }

  lemma NamesOfLength6A(n: string)
    requires |n| == 6 && n[0] <= 'R' && ReverseExerciseTypeMap(n).Some?
    ensures ExerciseTypeMap(ReverseExerciseTypeMap(n).value) == Some(n)
  {
    var t := ReverseExerciseTypeMap(n).value;
    if t == 8 {
      assert n == "Biking" && ExerciseTypeMap(8) == Some("Biking");
    } else if t == 11 {
      assert n == "Boxing" && ExerciseTypeMap(11) == Some("Boxing");
    } else if t == 37 {
      assert n == "Hiking" && ExerciseTypeMap(37) == Some("Hiking");
    } else {
      assert n == "Rowing" && ExerciseTypeMap(53) == Some("Rowing");
    }
  }

  lemma NamesOfLength6B(n: string)
    requires |n| == 6 && n[0] > 'R' && ReverseExerciseTypeMap(n).Some?
    ensures ExerciseTypeMap(ReverseExerciseTypeMap(n).value) == Some(n)
  {
    var t := ReverseExerciseTypeMap(n).value;
    if t == 61 {
      assert n == "Skiing" && ExerciseTypeMap(61) == Some("Skiing");
    } else if t == 64 {
      assert n == "Soccer" && ExerciseTypeMap(64) == Some("Soccer");
    } else if t == 66 {
      assert n == "Squash" && ExerciseTypeMap(66) == Some("Squash");
    } else {
      assert n == "Tennis" && ExerciseTypeMap(76) == Some("Tennis");
    }
  }

  lemma NamesOfLength7A(n: string)
    requires |n| == 7 && n[0] <= 'F' && ReverseExerciseTypeMap(n).Some?
    ensures ExerciseTypeMap(ReverseExerciseTypeMap(n).value) == Some(n)
  {
    var t := ReverseExerciseTypeMap(n).value;
    if t == 14 {
      assert n == "Cricket" && ExerciseTypeMap(14) == Some("Cricket");
    } else if t == 16 {
      assert n == "Dancing" && ExerciseTypeMap(16) == Some("Dancing");
    } else if t == 27 {
      assert n == "Fencing" && ExerciseTypeMap(27) == Some("Fencing");
    } else {
      assert n == "Frisbee" && ExerciseTypeMap(31) == Some("Frisbee");
    }
  }

  lemma NamesOfLength7B(n: string)
    requires |n| == 7 && n[0] > 'F' && n[0] <= 'R' && ReverseExerciseTypeMap(n).Some?
    ensures ExerciseTypeMap(ReverseExerciseTypeMap(n).value) == Some(n)
  {
    var t := ReverseExerciseTypeMap(n).value;
    if t == 48 {
      assert n == "Pilates" && ExerciseTypeMap(48) == Some("Pilates");
    } else {
      assert n == "Running" && ExerciseTypeMap(56) == Some("Running");
    }
  }

  lemma NamesOfLength7C(n: string)
    requires |n| == 7 && n[0] > 'R' && ReverseExerciseTypeMap(n).Some?
    ensures ExerciseTypeMap(ReverseExerciseTypeMap(n).value) == Some(n)
  {
    var t := ReverseExerciseTypeMap(n).value;
    if t == 58 {
      assert n == "Sailing" && ExerciseTypeMap(58) == Some("Sailing");
    } else if t == 60 {
      assert n == "Skating" && ExerciseTypeMap(60) == Some("Skating");
    } else if t == 72 {
      assert n == "Surfing" && ExerciseTypeMap(72) == Some("Surfing");
    } else {
      assert n == "Walking" && ExerciseTypeMap(79) == Some("Walking");
    }
  }

  lemma NamesOfLength8(n: string)
    requires |n| == 8 && ReverseExerciseTypeMap(n).Some?
    ensures ExerciseTypeMap(ReverseExerciseTypeMap(n).value) == Some(n)
  {
    var t := ReverseExerciseTypeMap(n).value;
    if t == 4 {
      assert n == "Baseball" && ExerciseTypeMap(4) == Some("Baseball");
    } else if t == 35 {
      assert n == "Handball" && ExerciseTypeMap(35) == Some("Handball");
    } else if t == 46 {
      assert n == "Paddling" && ExerciseTypeMap(46) == Some("Paddling");
    } else {
      assert n == "Softball" && ExerciseTypeMap(65) == Some("Softball");
    }
  }

  lemma NamesOfLength9(n: string)
    requires |n| == 9 && ReverseExerciseTypeMap(n).Some?
    ensures ExerciseTypeMap(ReverseExerciseTypeMap(n).value) == Some(n)
  {
    var t := ReverseExerciseTypeMap(n).value;
    if t == 2 {
      assert n == "Badminton" && ExerciseTypeMap(2) == Some("Badminton");
    } else {
      assert n == "Boot Camp" && ExerciseTypeMap(10) == Some("Boot Camp");
    }
  }

  lemma NamesOfLength10A(n: string)
    requires |n| == 10 && n[0] <= 'I' && ReverseExerciseTypeMap(n).Some?
    ensures ExerciseTypeMap(ReverseExerciseTypeMap(n).value) == Some(n)
  {
    var t := ReverseExerciseTypeMap(n).value;
    if t == 5 {
      assert n == "Basketball" && ExerciseTypeMap(5) == Some("Basketball");
    } else if t == 25 {
      assert n == "Elliptical" && ExerciseTypeMap(25) == Some("Elliptical");
    } else if t == 34 {
      assert n == "Gymnastics" && ExerciseTypeMap(34) == Some("Gymnastics");
    } else {
      assert n == "Ice Hockey" && ExerciseTypeMap(38) == Some("Ice Hockey");
    }
  }

  lemma NamesOfLength10B(n: string)
    requires |n| == 10 && n[0] > 'I' && ReverseExerciseTypeMap(n).Some?
    ensures ExerciseTypeMap(ReverseExerciseTypeMap(n).value) == Some(n)
  {
    var t := ReverseExerciseTypeMap(n).value;
    if t == 71 {
      assert n == "Stretching" && ExerciseTypeMap(71) == Some("Stretching");
    } else if t == 78 {
      assert n == "Volleyball" && ExerciseTypeMap(78) == Some("Volleyball");
    } else if t == 80 {
      assert n == "Water Polo" && ExerciseTypeMap(80) == Some("Water Polo");
    } else {
      assert n == "Wheelchair" && ExerciseTypeMap(82) == Some("Wheelchair");
    }
  }

  lemma NamesOfLength11(n: string)
    requires |n| == 11 && ReverseExerciseTypeMap(n).Some?
    ensures ExerciseTypeMap(ReverseExerciseTypeMap(n).value) == Some(n)
  {
    var t := ReverseExerciseTypeMap(n).value;
    if t == 39 {
      assert n == "Ice Skating" && ExerciseTypeMap(39) == Some("Ice Skating");
    } else if t == 47 {
      assert n == "Paragliding" && ExerciseTypeMap(47) == Some("Paragliding");
    } else if t == 50 {
      assert n == "Racquetball" && ExerciseTypeMap(50) == Some("Racquetball");
    } else {
      assert n == "Snowshoeing" && ExerciseTypeMap(63) == Some("Snowshoeing");
    }
  }

  lemma NamesOfLength12A(n: string)
    requires |n| == 12 && n[0] <= 'S' && ReverseExerciseTypeMap(n).Some?
    ensures ExerciseTypeMap(ReverseExerciseTypeMap(n).value) == Some(n)
  {
    var t := ReverseExerciseTypeMap(n).value;
    if t == 13 {
      assert n == "Calisthenics" && ExerciseTypeMap(13) == Some("Calisthenics");
    } else if t == 44 {
      assert n == "Martial Arts" && ExerciseTypeMap(44) == Some("Martial Arts");
    } else if t == 59 {
      assert n == "Scuba Diving" && ExerciseTypeMap(59) == Some("Scuba Diving");
    } else {
      assert n == "Snowboarding" && ExerciseTypeMap(62) == Some("Snowboarding");
    }
  }

  lemma NamesOfLength12B(n: string)
    requires |n| == 12 && n[0] > 'S' && ReverseExerciseTypeMap(n).Some?
    ensures ExerciseTypeMap(ReverseExerciseTypeMap(n).value) == Some(n)
  {
    assert n == "Table Tennis";
    assert ExerciseTypeMap(75) == Some("Table Tennis");
  }

  lemma NamesOfLength13(n: string)
    requires |n| == 13 && ReverseExerciseTypeMap(n).Some?
    ensures ExerciseTypeMap(ReverseExerciseTypeMap(n).value) == Some(n)
  {
    var t := ReverseExerciseTypeMap(n).value;
    if t == 51 {
      assert n == "Rock Climbing" && ExerciseTypeMap(51) == Some("Rock Climbing");
    } else {
      assert n == "Weightlifting" && ExerciseTypeMap(81) == Some("Weightlifting");
    }
  }

  lemma NamesOfLength14(n: string)
    requires |n| == 14 && ReverseExerciseTypeMap(n).Some?
    ensures ExerciseTypeMap(ReverseExerciseTypeMap(n).value) == Some(n)
  {
    var t := ReverseExerciseTypeMap(n).value;
    if t == 54 {
      assert n == "Rowing Machine" && ExerciseTypeMap(54) == Some("Rowing Machine");
    } else {
      assert n == "Stair Climbing" && ExerciseTypeMap(68) == Some("Stair Climbing");
    }
  }

  lemma NamesOfLength15(n: string)
    requires |n| == 15 && ReverseExerciseTypeMap(n).Some?
    ensures ExerciseTypeMap(ReverseExerciseTypeMap(n).value) == Some(n)
  {
    assert n == "Swimming (Pool)";
    assert ExerciseTypeMap(74) == Some("Swimming (Pool)");
  }

  lemma NamesOfLength16(n: string)
    requires |n| == 16 && ReverseExerciseTypeMap(n).Some?
    ensures ExerciseTypeMap(ReverseExerciseTypeMap(n).value) == Some(n)
  {
    assert n == "Guided Breathing";
    assert ExerciseTypeMap(33) == Some("Guided Breathing");
  }

  lemma NamesOfLength17(n: string)
    requires |n| == 17 && ReverseExerciseTypeMap(n).Some?
    ensures ExerciseTypeMap(ReverseExerciseTypeMap(n).value) == Some(n)
  {
    var t := ReverseExerciseTypeMap(n).value;
    if t == 9 {
      assert n == "Stationary Biking" && ExerciseTypeMap(9) == Some("Stationary Biking");
    } else if t == 70 {
      assert n == "Strength Training" && ExerciseTypeMap(70) == Some("Strength Training");
    } else {
      assert n == "Treadmill Running" && ExerciseTypeMap(57) == Some("Treadmill Running");
    }
  }

  lemma NamesOfLength19(n: string)
    requires |n| == 19 && ReverseExerciseTypeMap(n).Some?
    ensures ExerciseTypeMap(ReverseExerciseTypeMap(n).value) == Some(n)
  {
    assert n == "Football (American)";
    assert ExerciseTypeMap(28) == Some("Football (American)");
  }

  lemma NamesOfLength21(n: string)
    requires |n| == 21 && ReverseExerciseTypeMap(n).Some?
    ensures ExerciseTypeMap(ReverseExerciseTypeMap(n).value) == Some(n)
  {
    var t := ReverseExerciseTypeMap(n).value;
    if t == 29 {
      assert n == "Football (Australian)" && ExerciseTypeMap(29) == Some("Football (Australian)");
    } else {
      assert n == "Swimming (Open Water)" && ExerciseTypeMap(73) == Some("Swimming (Open Water)");
    }
  }

  lemma NamesOfLength22(n: string)
    requires |n| == 22 && ReverseExerciseTypeMap(n).Some?
    ensures ExerciseTypeMap(ReverseExerciseTypeMap(n).value) == Some(n)
  {
    assert n == "Stair Climbing Machine";
    assert ExerciseTypeMap(69) == Some("Stair Climbing Machine");
  }

  /** Every name the reverse map knows maps back to itself. */
  lemma ReverseName(n: string)
    requires ReverseExerciseTypeMap(n).Some?
    ensures ExerciseTypeMap(ReverseExerciseTypeMap(n).value) == Some(n)
  {
    if |n| == 4 {
      NamesOfLength4(n);
    } else if |n| == 5 {
      NamesOfLength5(n);
    } else if |n| == 6 {
      if n[0] <= 'R' {
        NamesOfLength6A(n);
      } else {
        NamesOfLength6B(n);
      }
    } else if |n| == 7 {
      if n[0] <= 'F' {
        NamesOfLength7A(n);
      } else if n[0] <= 'R' {
        NamesOfLength7B(n);
      } else {
        NamesOfLength7C(n);
      }
    } else if |n| == 8 {
      NamesOfLength8(n);
    } else if |n| == 9 {
      NamesOfLength9(n);
    } else if |n| == 10 {
      if n[0] <= 'I' {
        NamesOfLength10A(n);
      } else {
        NamesOfLength10B(n);
      }
    } else if |n| == 11 {
      NamesOfLength11(n);
    } else if |n| == 12 {
      if n[0] <= 'S' {
        NamesOfLength12A(n);
      } else {
        NamesOfLength12B(n);
      }
    } else if |n| == 13 {
      NamesOfLength13(n);
    } else if |n| == 14 {
      NamesOfLength14(n);
    } else if |n| == 15 {
      NamesOfLength15(n);
    } else if |n| == 16 {
      NamesOfLength16(n);
    } else if |n| == 17 {
      NamesOfLength17(n);
    } else if |n| == 19 {
      NamesOfLength19(n);
    } else if |n| == 21 {
      NamesOfLength21(n);
    } else if |n| == 22 {
      NamesOfLength22(n);
    } else {
      assert false;
    }
  }

  /** The table's names are distinct, so reading it backwards loses no
      entry. */
  lemma TableNamesDistinct()
    ensures forall k, l :: 0 <= k < l < TableSize ==> Entry(k).1 != Entry(l).1
  {
    forall k, l | 0 <= k < l < TableSize ensures Entry(k).1 != Entry(l).1 {
      EntryFound(k);
      EntryFound(l);
    }
  }

  /** `toId(toName(t)) == t` for every code in the table. */
  lemma ToIdOfName(t: int)
    requires ExerciseTypeMap(t).Some?
    ensures ToId(ToName(t)) == Some(t)
  {
    EntryFound(Position(t).value);
  }

  /** `toName(toId(n)) == n` whenever `toId(n)` is not null. */
  lemma ToNameOfId(n: string)
    requires ToId(n).Some?
    ensures ToName(ToId(n).value) == n
  {
    ReverseName(n);
  }

  /** The reverse map is the table read backwards: `toId(n)` is `t` exactly
      when the table maps `t` to `n`. */
  lemma ToIdInverts(n: string, t: int)
    ensures ToId(n) == Some(t) <==> ExerciseTypeMap(t) == Some(n)
  {
    if ToId(n) == Some(t) {
      ReverseName(n);
    }
    if ExerciseTypeMap(t) == Some(n) {
      ToIdOfName(t);
    }
  }

  /** The fallback name is no table name: `toId` does not know it, and
      `toName` gives it exactly for the codes outside the table. */
  lemma UnknownExerciseName(t: int)
    ensures ToId(UnknownExercise) == None
    ensures ToName(t) == UnknownExercise <==> ExerciseTypeMap(t).None?
  {
    assert ReverseExerciseTypeMap(UnknownExercise) == None;
    if ExerciseTypeMap(t).Some? {
      ToIdOfName(t);
    }
  }

  /** `getSupportedTypes`: `exerciseTypeMap.values.sorted()`. */
  function GetSupportedTypes(): seq<string> {
    SortAscending(TableNames())
  }

  /** The names `toId` knows are exactly the table's names. */
  lemma TableNameKnown(n: string)
    ensures n in TableNames() <==> ToId(n).Some?
  {
    var names := TableNames();
    if n in names {
      var k :| 0 <= k < |names| && names[k] == n;
      EntryFound(k);
    }
    if ToId(n).Some? {
      var t := ToId(n).value;
      ToIdInverts(n, t);
      var k := Position(t).value;
      assert names[k] == n;
    }
  }

  /** `getSupportedTypes` lists every name of the table exactly once, in
      strictly ascending order, and nothing else: its entries are exactly
      the names `toId` knows. */
  lemma SupportedTypesSpec()
    ensures var r := GetSupportedTypes();
            && |r| == TableSize
            && (forall i, j :: 0 <= i < j < |r| ==> LexLe(r[i], r[j]) && r[i] != r[j])
            && (forall n :: n in r <==> ToId(n).Some?)
  {
    TableNamesDistinct();
    SortAscendingDistinct(TableNames());
    forall n ensures n in TableNames() <==> ToId(n).Some? {
      TableNameKnown(n);
    }
  }
}
