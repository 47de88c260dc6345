/** `GroupCodes`: the fixed table pairing each of the 51 dashboard access
    codes with the group number 0 to 50 it unlocks, looked up either way. */
module GroupCodes {
  import opened Json

  /** `$codeMap`, read by group: the code listed for group `g`, in the
      table's own order; "" for a number outside 0..50. */
  function Code(g: int): string {
    match g
    case 0 => "JN9LC-A4BGF-HD64P"
    case 1 => "KE9N3-6FRMX-GXEQR"
    case 2 => "AQK6K-BHPAY-KBAT4"
    case 3 => "E93P8-6C3RW-KN83G"
    case 4 => "KW3TY-N6XGN-FCG4T"
    case 5 => "LWYXT-3W8YX-KDR63"
    case 6 => "X3KPK-K6JNN-QLFFC"
    case 7 => "PP8WP-CLB9H-WC996"
    case 8 => "LRCPG-6XCGY-H8KE3"
    case 9 => "C3GHW-WXJ3W-LDHMY"
    case 10 => "QGP4Y-P3WJR-8PDK8"
    case 11 => "DKK3G-J3QKM-Q6W9T"
    case 12 => "KHMBA-NXNDL-M4JAJ"
    case 13 => "HYECX-H9HBQ-MQXDR"
    case 14 => "KMKWY-8TXRC-GE3D8"
    case 15 => "QNYTP-BLMMT-ECQDA"
    case 16 => "KCGP3-AQANX-GKXQK"
    case 17 => "T6LWT-JRA4K-XY8L8"
    case 18 => "DGAMQ-XLN9R-3C3T8"
    case 19 => "MYT6T-9RGWW-CJQX4"
    case 20 => "YQ9QT-W466J-RRBMC"
    case 21 => "GL8AB-GWQQR-4HR6X"
    case 22 => "AFEH8-4C34D-CY8AH"
    case 23 => "8ND4T-6RLHA-MH4QQ"
    case 24 => "NDR98-XGDX9-XXQRG"
    case 25 => "4JGTK-PR6BG-CWWCL"
    case 26 => "GCJKX-6CM8R-NXHFB"
    case 27 => "JB8Y3-W6T4J-YEH3Q"
    case 28 => "CMXFG-DFR63-6XERG"
    case 29 => "GLJJC-C6TFA-RXQY9"
    case 30 => "XLRA9-F3LGB-4HWCT"
    case 31 => "9G4KQ-BCQNB-96EFT"
    case 32 => "3XY8H-CFLT9-MFYBR"
    case 33 => "HQ6M3-P69NQ-J4XRN"
    case 34 => "QWXTC-4WRWM-PAH4N"
    case 35 => "PTHFM-9383K-FQCFF"
    case 36 => "DN6TH-ETXEN-Q3TD3"
    case 37 => "W8WFF-3Q89T-YFQMG"
    case 38 => "FNDG4-AYP4W-LDLQB"
    case 39 => "Q88XE-6RHKD-DNPTD"
    case 40 => "FHJ33-YL4FF-4TWYQ"
    case 41 => "TH4PE-D4AC8-P4RYK"
    case 42 => "BWBQB-GH8K8-NR4NG"
    case 43 => "3KGJC-WEPL8-H3F9B"
    case 44 => "8JJTX-B98P6-FDPEN"
    case 45 => "WCW3D-GFM9Q-F3J9A"
    case 46 => "T66LE-MTE3G-QHWQJ"
    case 47 => "TE63E-JCQJX-FF9L4"
    case 48 => "WTLCR-QQTXM-4EKB6"
    case 49 => "99LCE-TCADD-PPK63"
    case 50 => "PPRH3-YRLQJ-MERNA"
    case _ => ""
  }

  const GroupCount: int := 51

  predicate IsGroup(g: int) {
    0 <= g < GroupCount
  }

  /** `GroupCodes::getGroup($code)`: the group whose code is `code`, or the
      exception for an unknown code. */
  function GetGroup(code: string): (r: Result<int, string>)
    ensures r.Ok? ==> IsGroup(r.value) && Code(r.value) == code
    ensures r.Err? ==> (forall g :: IsGroup(g) ==> Code(g) != code) && r.error == "Cannot find the code \"" + code + "\""
  {
    match Search(code, 0)
    case Some(g) => Ok(g)
    case None => Err("Cannot find the code \"" + code + "\"")
  }

  /** The first group from `from` on whose code is `code`. */
  function Search(code: string, from: nat): (r: Option<int>)
    ensures r.Some? ==> from <= r.value < GroupCount && Code(r.value) == code
    ensures r.None? ==> forall g :: from <= g < GroupCount ==> Code(g) != code
    decreases GroupCount - from
  {
    if from >= GroupCount then None
    else if Code(from) == code then Some(from)
    else Search(code, from + 1)
  }

  /** `GroupCodes::getCode($group)`: the code of a group in 0..50 (through
      `array_flip`), or the exception for any other number. */
  function GetCode(group: int): (r: Result<string, string>)
  {
    if IsGroup(group) then Ok(Code(group))
    else Err("Cannot find the group \"" + IntToString(group) + "\"")
  }

  // ----- The codes are pairwise distinct -----
  // Two codes already differ in their first three characters; `Lead` lists
  // those characters, one chunk of the table at a time keeps the proofs small.

  function Lead(g: int): (char, char, char) {
    match g
    case 0 => ('J', 'N', '9')
    case 1 => ('K', 'E', '9')
    case 2 => ('A', 'Q', 'K')
    case 3 => ('E', '9', '3')
    case 4 => ('K', 'W', '3')
    case 5 => ('L', 'W', 'Y')
    case 6 => ('X', '3', 'K')
    case 7 => ('P', 'P', '8')
    case 8 => ('L', 'R', 'C')
    case 9 => ('C', '3', 'G')
    case 10 => ('Q', 'G', 'P')
    case 11 => ('D', 'K', 'K')
    case 12 => ('K', 'H', 'M')
    case 13 => ('H', 'Y', 'E')
    case 14 => ('K', 'M', 'K')
    case 15 => ('Q', 'N', 'Y')
    case 16 => ('K', 'C', 'G')
    case 17 => ('T', '6', 'L')
    case 18 => ('D', 'G', 'A')
    case 19 => ('M', 'Y', 'T')
    case 20 => ('Y', 'Q', '9')
    case 21 => ('G', 'L', '8')
    case 22 => ('A', 'F', 'E')
    case 23 => ('8', 'N', 'D')
    case 24 => ('N', 'D', 'R')
    case 25 => ('4', 'J', 'G')
    case 26 => ('G', 'C', 'J')
    case 27 => ('J', 'B', '8')
    case 28 => ('C', 'M', 'X')
    case 29 => ('G', 'L', 'J')
    case 30 => ('X', 'L', 'R')
    case 31 => ('9', 'G', '4')
    case 32 => ('3', 'X', 'Y')
    case 33 => ('H', 'Q', '6')
    case 34 => ('Q', 'W', 'X')
    case 35 => ('P', 'T', 'H')
    case 36 => ('D', 'N', '6')
    case 37 => ('W', '8', 'W')
    case 38 => ('F', 'N', 'D')
    case 39 => ('Q', '8', '8')
    case 40 => ('F', 'H', 'J')
    case 41 => ('T', 'H', '4')
    case 42 => ('B', 'W', 'B')
    case 43 => ('3', 'K', 'G')
    case 44 => ('8', 'J', 'J')
    case 45 => ('W', 'C', 'W')
    case 46 => ('T', '6', '6')
    case 47 => ('T', 'E', '6')
    case 48 => ('W', 'T', 'L')
    case 49 => ('9', '9', 'L')
    case 50 => ('P', 'P', 'R')
    case _ => (' ', ' ', ' ')
  }

  function Head(s: string): (char, char, char)
    requires |s| >= 3
  {
    (s[0], s[1], s[2])
  }

  lemma LeadOfCodes0(g: int)
    requires 0 <= g < 5
    ensures |Code(g)| >= 3 && Head(Code(g)) == Lead(g)
  {
    assert g == 0 || g == 1 || g == 2 || g == 3 || g == 4;
  }

  lemma LeadOfCodes5(g: int)
    requires 5 <= g < 10
    ensures |Code(g)| >= 3 && Head(Code(g)) == Lead(g)
  {
    assert g == 5 || g == 6 || g == 7 || g == 8 || g == 9;
  }

  lemma LeadOfCodes10(g: int)
    requires 10 <= g < 15
    ensures |Code(g)| >= 3 && Head(Code(g)) == Lead(g)
  {
    assert g == 10 || g == 11 || g == 12 || g == 13 || g == 14;
  }

  lemma LeadOfCodes15(g: int)
    requires 15 <= g < 20
    ensures |Code(g)| >= 3 && Head(Code(g)) == Lead(g)
  {
    assert g == 15 || g == 16 || g == 17 || g == 18 || g == 19;
  }

  lemma LeadOfCodes20(g: int)
    requires 20 <= g < 25
    ensures |Code(g)| >= 3 && Head(Code(g)) == Lead(g)
  {
    assert g == 20 || g == 21 || g == 22 || g == 23 || g == 24;
  }

  lemma LeadOfCodes25(g: int)
    requires 25 <= g < 30
    ensures |Code(g)| >= 3 && Head(Code(g)) == Lead(g)
  {
    assert g == 25 || g == 26 || g == 27 || g == 28 || g == 29;
  }

  lemma LeadOfCodes30(g: int)
    requires 30 <= g < 35
    ensures |Code(g)| >= 3 && Head(Code(g)) == Lead(g)
  {
    assert g == 30 || g == 31 || g == 32 || g == 33 || g == 34;
  }

  lemma LeadOfCodes35(g: int)
    requires 35 <= g < 40
    ensures |Code(g)| >= 3 && Head(Code(g)) == Lead(g)
  {
    assert g == 35 || g == 36 || g == 37 || g == 38 || g == 39;
  }

  lemma LeadOfCodes40(g: int)
    requires 40 <= g < 45
    ensures |Code(g)| >= 3 && Head(Code(g)) == Lead(g)
  {
    assert g == 40 || g == 41 || g == 42 || g == 43 || g == 44;
  }

  lemma LeadOfCodes45(g: int)
    requires 45 <= g < 50
    ensures |Code(g)| >= 3 && Head(Code(g)) == Lead(g)
  {
    assert g == 45 || g == 46 || g == 47 || g == 48 || g == 49;
  }

  lemma LeadOfCodes50(g: int)
    requires 50 <= g < 51
    ensures |Code(g)| >= 3 && Head(Code(g)) == Lead(g)
  {
    assert g == 50;
  }

  lemma LeadsDistinct0()
    ensures forall g1, g2 :: 0 <= g1 < 10 && g1 < g2 < GroupCount ==> Lead(g1) != Lead(g2)
  {
  }

  lemma LeadsDistinct10()
    ensures forall g1, g2 :: 10 <= g1 < 20 && g1 < g2 < GroupCount ==> Lead(g1) != Lead(g2)
  {
  }

  lemma LeadsDistinct20()
    ensures forall g1, g2 :: 20 <= g1 < 30 && g1 < g2 < GroupCount ==> Lead(g1) != Lead(g2)
  {
  }

  lemma LeadsDistinct30()
    ensures forall g1, g2 :: 30 <= g1 < 40 && g1 < g2 < GroupCount ==> Lead(g1) != Lead(g2)
  {
  }

  lemma LeadsDistinct40()
    ensures forall g1, g2 :: 40 <= g1 < 50 && g1 < g2 < GroupCount ==> Lead(g1) != Lead(g2)
  {
  }

  lemma LeadsDistinct50()
    ensures forall g1, g2 :: 50 <= g1 < 51 && g1 < g2 < GroupCount ==> Lead(g1) != Lead(g2)
  {
  }

  lemma LeadOfCode(g: int)
    requires IsGroup(g)
    ensures |Code(g)| >= 3 && Head(Code(g)) == Lead(g)
  {
    if g < 5 { LeadOfCodes0(g); }
    else if g < 10 { LeadOfCodes5(g); }
    else if g < 15 { LeadOfCodes10(g); }
    else if g < 20 { LeadOfCodes15(g); }
    else if g < 25 { LeadOfCodes20(g); }
    else if g < 30 { LeadOfCodes25(g); }
    else if g < 35 { LeadOfCodes30(g); }
    else if g < 40 { LeadOfCodes35(g); }
    else if g < 45 { LeadOfCodes40(g); }
    else if g < 50 { LeadOfCodes45(g); }
    else { LeadOfCodes50(g); }
  }

  /** No two groups share a code, so `array_flip` loses nothing. */
  lemma CodesDistinct(g1: int, g2: int)
    requires IsGroup(g1) && IsGroup(g2)
    requires Code(g1) == Code(g2)
    ensures g1 == g2
  {
    LeadOfCode(g1);
    LeadOfCode(g2);
    LeadsDistinct0();
    LeadsDistinct10();
    LeadsDistinct20();
    LeadsDistinct30();
    LeadsDistinct40();
    LeadsDistinct50();
  }

  // ----- The two lookups are inverse -----

  /** `getCode(getGroup(c)) == c` for every code of the table. */
  lemma CodeOfGroupOfCode(code: string)
    requires GetGroup(code).Ok?
    ensures GetCode(GetGroup(code).value) == Ok(code)
  {
  }

  /** `getCode` succeeds exactly for the groups 0..50, and then
      `getGroup(getCode(g)) == g`; any other group throws with the group in
      the message. */
  lemma GroupOfCodeOfGroup(g: int)
    ensures GetCode(g).Ok? <==> IsGroup(g)
    ensures GetCode(g).Ok? ==> GetGroup(GetCode(g).value) == Ok(g)
    ensures GetCode(g).Err? ==> GetCode(g).error == "Cannot find the group \"" + IntToString(g) + "\""
  {
    if IsGroup(g) {
      var r := GetGroup(Code(g));
      assert r.Ok?;
      CodesDistinct(r.value, g);
    }
  }

  /** A code is accepted exactly when it is one of the table's codes. */
  lemma KnownCodes(code: string)
    ensures GetGroup(code).Ok? <==> exists g :: IsGroup(g) && Code(g) == code
  {
    if g :| IsGroup(g) && Code(g) == code {
      assert !(forall g' :: IsGroup(g') ==> Code(g') != code);
    }
  }
}
