/** The fifteen networks, in the order of their SORT_CSWAP calls, and the proof that each sorts.

For each network: the list of exchanges, the same exchanges as one expression over truth values on
wires, the proof that the two agree, and the proof that the outcome is in order for all truth
values.
 */
module SmallNetworks {
  import opened Networks

  // ---------- 2 elements ----------

  function Network2(): Network {
    Done.X(0, 1)
  }

  function Run2(w: Wires): Wires {
    w.X0_1()
  }

  lemma Shape2() returns (first: Network)
    ensures Shape(Network2(), first, 2)
    ensures first == Done.X(0, 1)
  {
    var n := Put(Done, Done, 2, 0, 1); first := n;
  }

  lemma Link2(w: Wires)
    ensures ApplyW(Network2(), w) == Run2(w)
  {
    Table0();
    var n := One(Done, w, 0, 1);
  }

  lemma Sorts2Chain(w: Wires)
    ensures var v := Run2(w);
      && Le(v.w0, v.w1)
  {
  }

  lemma Sorts2()
    ensures SortsWires(Network2(), 2)
  {
    forall w ensures SortedW(ApplyW(Network2(), w), 2) {
      Link2(w);
      Sorts2Chain(w);
    }
  }

  // ---------- 3 elements ----------

  function Network3(): Network {
    Done.X(1, 2).X(0, 2).X(0, 1)
  }

  function Run3(w: Wires): Wires {
    w.X1_2().X0_2().X0_1()
  }

  lemma Shape3() returns (first: Network)
    ensures Shape(Network3(), first, 3)
    ensures first == Done.X(1, 2).X(0, 2)
  {
    var n := Put(Done, Done, 3, 1, 2); n := Put(n, Done, 3, 0, 2); first := n; n := Put(n, first, 3, 0, 1);
  }

  lemma Link3(w: Wires)
    ensures ApplyW(Network3(), w) == Run3(w)
  {
    Table0();
    var n := One(Done, w, 1, 2); n := One(n, w, 0, 2); n := One(n, w, 0, 1);
  }

  lemma Sorts3Chain(w: Wires)
    ensures var v := Run3(w);
      && Le(v.w0, v.w1) && Le(v.w1, v.w2)
  {
  }

  lemma Sorts3()
    ensures SortsWires(Network3(), 3)
  {
    forall w ensures SortedW(ApplyW(Network3(), w), 3) {
      Link3(w);
      Sorts3Chain(w);
    }
  }

  // ---------- 4 elements ----------

  function Network4(): Network {
    Done.X(0, 1).X(2, 3).X(0, 2).X(1, 3).X(1, 2)
  }

  function Run4(w: Wires): Wires {
    w.X0_1().X2_3().X0_2().X1_3().X1_2()
  }

  lemma Shape4() returns (first: Network)
    ensures Shape(Network4(), first, 4)
    ensures first == Done.X(0, 1).X(2, 3).X(0, 2)
  {
    var n := Put(Done, Done, 4, 0, 1); n := Put(n, Done, 4, 2, 3); n := Put(n, Done, 4, 0, 2); first := n;
    n := Put(n, first, 4, 1, 3); n := Put(n, first, 4, 1, 2);
  }

  lemma Link4(w: Wires)
    ensures ApplyW(Network4(), w) == Run4(w)
  {
    Table0(); Table1();
    var n := Four(Done, w, 0, 1, 2, 3, 0, 2, 1, 3); n := One(n, w, 1, 2);
  }

  lemma Sorts4Chain(w: Wires)
    ensures var v := Run4(w);
      && Le(v.w0, v.w1) && Le(v.w1, v.w2) && Le(v.w2, v.w3)
  {
  }

  lemma Sorts4()
    ensures SortsWires(Network4(), 4)
  {
    forall w ensures SortedW(ApplyW(Network4(), w), 4) {
      Link4(w);
      Sorts4Chain(w);
    }
  }

  // ---------- 5 elements ----------

  function Network5(): Network {
    Done.X(0, 1).X(3, 4).X(2, 4).X(2, 3).X(1, 4).X(0, 3).X(0, 2).X(1, 3).X(1, 2)
  }

  function Run5(w: Wires): Wires {
    w.X0_1().X3_4().X2_4().X2_3().X1_4().X0_3().X0_2().X1_3().X1_2()
  }

  lemma Shape5() returns (first: Network)
    ensures Shape(Network5(), first, 5)
    ensures first == Done.X(0, 1).X(3, 4).X(2, 4)
  {
    var n := Put(Done, Done, 5, 0, 1); n := Put(n, Done, 5, 3, 4); n := Put(n, Done, 5, 2, 4); first := n;
    n := PutFour(n, first, 5, 2, 3, 1, 4, 0, 3, 0, 2); n := Put(n, first, 5, 1, 3); n := Put(n, first, 5, 1, 2);
  }

  lemma Link5(w: Wires)
    ensures ApplyW(Network5(), w) == Run5(w)
  {
    Table0(); Table1();
    var n := Four(Done, w, 0, 1, 3, 4, 2, 4, 2, 3); n := Four(n, w, 1, 4, 0, 3, 0, 2, 1, 3); n := One(n, w, 1, 2);
  }

  lemma Sorts5Chain(w: Wires)
    ensures var v := Run5(w);
      && Le(v.w0, v.w1) && Le(v.w1, v.w2) && Le(v.w2, v.w3) && Le(v.w3, v.w4)
  {
  }

  lemma Sorts5()
    ensures SortsWires(Network5(), 5)
  {
    forall w ensures SortedW(ApplyW(Network5(), w), 5) {
      Link5(w);
      Sorts5Chain(w);
    }
  }

  // ---------- 6 elements ----------

  function Network6(): Network {
    Done.X(1, 2).X(4, 5).X(0, 2).X(3, 5).X(0, 1).X(3, 4).X(2, 5).X(0, 3).X(1, 4).X(2, 4).X(1, 3).X(2, 3)
  }

  function Run6(w: Wires): Wires {
    w.X1_2().X4_5().X0_2().X3_5().X0_1().X3_4().X2_5().X0_3().X1_4().X2_4().X1_3().X2_3()
  }

  lemma Shape6() returns (first: Network)
    ensures Shape(Network6(), first, 6)
    ensures first == Done.X(1, 2).X(4, 5).X(0, 2)
  {
    var n := Put(Done, Done, 6, 1, 2); n := Put(n, Done, 6, 4, 5); n := Put(n, Done, 6, 0, 2); first := n;
    n := PutFour(n, first, 6, 3, 5, 0, 1, 3, 4, 2, 5); n := PutFour(n, first, 6, 0, 3, 1, 4, 2, 4, 1, 3);
    n := Put(n, first, 6, 2, 3);
  }

  lemma Link6(w: Wires)
    ensures ApplyW(Network6(), w) == Run6(w)
  {
    Table0(); Table1(); Table2();
    var n := Four(Done, w, 1, 2, 4, 5, 0, 2, 3, 5); n := Four(n, w, 0, 1, 3, 4, 2, 5, 0, 3);
    n := Four(n, w, 1, 4, 2, 4, 1, 3, 2, 3);
  }

  lemma Sorts6Chain(w: Wires)
    ensures var v := Run6(w);
      && Le(v.w0, v.w1) && Le(v.w1, v.w2) && Le(v.w2, v.w3) && Le(v.w3, v.w4) && Le(v.w4, v.w5)
  {
  }

  lemma Sorts6()
    ensures SortsWires(Network6(), 6)
  {
    forall w ensures SortedW(ApplyW(Network6(), w), 6) {
      Link6(w);
      Sorts6Chain(w);
    }
  }

  // ---------- 7 elements ----------

  function Network7(): Network {
    Done.X(1, 2).X(3, 4).X(5, 6).X(0, 2).X(3, 5).X(4, 6).X(0, 1).X(4, 5).X(2, 6).X(0, 4).X(1, 5).X(0, 3).X(2, 5)
        .X(1, 3).X(2, 4).X(2, 3)
  }

  function Run7(w: Wires): Wires {
    w.X1_2().X3_4().X5_6().X0_2().X3_5().X4_6().X0_1().X4_5().X2_6().X0_4().X1_5().X0_3().X2_5().X1_3().X2_4()
     .X2_3()
  }

  lemma Shape7() returns (first: Network)
    ensures Shape(Network7(), first, 7)
    ensures first == Done.X(1, 2).X(3, 4).X(5, 6).X(0, 2)
  {
    var n := PutFour(Done, Done, 7, 1, 2, 3, 4, 5, 6, 0, 2); first := n;
    n := PutFour(n, first, 7, 3, 5, 4, 6, 0, 1, 4, 5); n := PutFour(n, first, 7, 2, 6, 0, 4, 1, 5, 0, 3);
    n := PutFour(n, first, 7, 2, 5, 1, 3, 2, 4, 2, 3);
  }

  lemma Link7(w: Wires)
    ensures ApplyW(Network7(), w) == Run7(w)
  {
    Table0(); Table1(); Table2();
    var n := Four(Done, w, 1, 2, 3, 4, 5, 6, 0, 2); n := Four(n, w, 3, 5, 4, 6, 0, 1, 4, 5);
    n := Four(n, w, 2, 6, 0, 4, 1, 5, 0, 3); n := Four(n, w, 2, 5, 1, 3, 2, 4, 2, 3);
  }

  lemma Sorts7Chain(w: Wires)
    ensures var v := Run7(w);
      && Le(v.w0, v.w1) && Le(v.w1, v.w2) && Le(v.w2, v.w3) && Le(v.w3, v.w4) && Le(v.w4, v.w5) && Le(v.w5, v.w6)
  {
  }

  lemma Sorts7()
    ensures SortsWires(Network7(), 7)
  {
    forall w ensures SortedW(ApplyW(Network7(), w), 7) {
      Link7(w);
      Sorts7Chain(w);
    }
  }

  // ---------- 8 elements ----------

  function Network8(): Network {
    Done.X(0, 1).X(2, 3).X(4, 5).X(6, 7).X(0, 2).X(1, 3).X(4, 6).X(5, 7).X(1, 2).X(5, 6).X(0, 4).X(3, 7).X(1, 5)
        .X(2, 6).X(1, 4).X(3, 6).X(2, 4).X(3, 5).X(3, 4)
  }

  function Run8(w: Wires): Wires {
    w.X0_1().X2_3().X4_5().X6_7().X0_2().X1_3().X4_6().X5_7().X1_2().X5_6().X0_4().X3_7().X1_5().X2_6().X1_4()
     .X3_6().X2_4().X3_5().X3_4()
  }

  lemma Shape8() returns (first: Network)
    ensures Shape(Network8(), first, 8)
    ensures first == Done.X(0, 1).X(2, 3).X(4, 5).X(6, 7).X(0, 2)
  {
    var n := PutFour(Done, Done, 8, 0, 1, 2, 3, 4, 5, 6, 7); n := Put(n, Done, 8, 0, 2); first := n;
    n := PutFour(n, first, 8, 1, 3, 4, 6, 5, 7, 1, 2); n := PutFour(n, first, 8, 5, 6, 0, 4, 3, 7, 1, 5);
    n := PutFour(n, first, 8, 2, 6, 1, 4, 3, 6, 2, 4); n := Put(n, first, 8, 3, 5); n := Put(n, first, 8, 3, 4);
  }

  lemma Link8(w: Wires)
    ensures ApplyW(Network8(), w) == Run8(w)
  {
    Table0(); Table1(); Table2(); Table3();
    var n := Four(Done, w, 0, 1, 2, 3, 4, 5, 6, 7); n := Four(n, w, 0, 2, 1, 3, 4, 6, 5, 7);
    n := Four(n, w, 1, 2, 5, 6, 0, 4, 3, 7); n := Four(n, w, 1, 5, 2, 6, 1, 4, 3, 6); n := One(n, w, 2, 4);
    n := One(n, w, 3, 5); n := One(n, w, 3, 4);
  }

  lemma Sorts8Chain(w: Wires)
    ensures var v := Run8(w);
      && Le(v.w0, v.w1) && Le(v.w1, v.w2) && Le(v.w2, v.w3) && Le(v.w3, v.w4) && Le(v.w4, v.w5) && Le(v.w5, v.w6)
      && Le(v.w6, v.w7)
  {
  }

  lemma Sorts8()
    ensures SortsWires(Network8(), 8)
  {
    forall w ensures SortedW(ApplyW(Network8(), w), 8) {
      Link8(w);
      Sorts8Chain(w);
    }
  }

  // ---------- 9 elements ----------

  function Network9(): Network {
    Done.X(0, 1).X(3, 4).X(6, 7).X(1, 2).X(4, 5).X(7, 8).X(0, 1).X(3, 4).X(6, 7).X(2, 5).X(0, 3).X(1, 4).X(5, 8)
        .X(3, 6).X(4, 7).X(2, 5).X(0, 3).X(1, 4).X(5, 7).X(2, 6).X(1, 3).X(4, 6).X(2, 4).X(5, 6).X(2, 3)
  }

  function Run9(w: Wires): Wires {
    w.X0_1().X3_4().X6_7().X1_2().X4_5().X7_8().X0_1().X3_4().X6_7().X2_5().X0_3().X1_4().X5_8().X3_6().X4_7()
     .X2_5().X0_3().X1_4().X5_7().X2_6().X1_3().X4_6().X2_4().X5_6().X2_3()
  }

  lemma Shape9() returns (first: Network)
    ensures Shape(Network9(), first, 9)
    ensures first == Done.X(0, 1).X(3, 4).X(6, 7).X(1, 2).X(4, 5).X(7, 8).X(0, 1).X(3, 4).X(6, 7).X(2, 5)
  {
    var n := PutFour(Done, Done, 9, 0, 1, 3, 4, 6, 7, 1, 2); n := PutFour(n, Done, 9, 4, 5, 7, 8, 0, 1, 3, 4);
    n := Put(n, Done, 9, 6, 7); n := Put(n, Done, 9, 2, 5); first := n;
    n := PutFour(n, first, 9, 0, 3, 1, 4, 5, 8, 3, 6); n := PutFour(n, first, 9, 4, 7, 2, 5, 0, 3, 1, 4);
    n := PutFour(n, first, 9, 5, 7, 2, 6, 1, 3, 4, 6); n := Put(n, first, 9, 2, 4); n := Put(n, first, 9, 5, 6);
    n := Put(n, first, 9, 2, 3);
  }

  lemma Link9(w: Wires)
    ensures ApplyW(Network9(), w) == Run9(w)
  {
    Table0(); Table1(); Table2(); Table3();
    var n := Four(Done, w, 0, 1, 3, 4, 6, 7, 1, 2); n := Four(n, w, 4, 5, 7, 8, 0, 1, 3, 4);
    n := Four(n, w, 6, 7, 2, 5, 0, 3, 1, 4); n := Four(n, w, 5, 8, 3, 6, 4, 7, 2, 5);
    n := Four(n, w, 0, 3, 1, 4, 5, 7, 2, 6); n := Four(n, w, 1, 3, 4, 6, 2, 4, 5, 6); n := One(n, w, 2, 3);
  }

  lemma Sorts9Chain(w: Wires)
    ensures var v := Run9(w);
      && Le(v.w0, v.w1) && Le(v.w1, v.w2) && Le(v.w2, v.w3) && Le(v.w3, v.w4) && Le(v.w4, v.w5) && Le(v.w5, v.w6)
      && Le(v.w6, v.w7) && Le(v.w7, v.w8)
  {
  }

  lemma Sorts9()
    ensures SortsWires(Network9(), 9)
  {
    forall w ensures SortedW(ApplyW(Network9(), w), 9) {
      Link9(w);
      Sorts9Chain(w);
    }
  }

  // ---------- 10 elements ----------

  function Network10(): Network {
    Done.X(4, 9).X(3, 8).X(2, 7).X(1, 6).X(0, 5).X(1, 4).X(6, 9).X(0, 3).X(5, 8).X(0, 2).X(3, 6).X(7, 9).X(0, 1)
        .X(2, 4).X(5, 7).X(8, 9).X(1, 2).X(4, 6).X(7, 8).X(3, 5).X(2, 5).X(6, 8).X(1, 3).X(4, 7).X(2, 3).X(6, 7)
        .X(3, 4).X(5, 6).X(4, 5)
  }

  function Run10(w: Wires): Wires {
    w.X4_9().X3_8().X2_7().X1_6().X0_5().X1_4().X6_9().X0_3().X5_8().X0_2().X3_6().X7_9().X0_1().X2_4().X5_7()
     .X8_9().X1_2().X4_6().X7_8().X3_5().X2_5().X6_8().X1_3().X4_7().X2_3().X6_7().X3_4().X5_6().X4_5()
  }

  lemma Shape10() returns (first: Network)
    ensures Shape(Network10(), first, 10)
    ensures first == Done.X(4, 9)
  {
    var n := Put(Done, Done, 10, 4, 9); first := n; n := PutFour(n, first, 10, 3, 8, 2, 7, 1, 6, 0, 5);
    n := PutFour(n, first, 10, 1, 4, 6, 9, 0, 3, 5, 8); n := PutFour(n, first, 10, 0, 2, 3, 6, 7, 9, 0, 1);
    n := PutFour(n, first, 10, 2, 4, 5, 7, 8, 9, 1, 2); n := PutFour(n, first, 10, 4, 6, 7, 8, 3, 5, 2, 5);
    n := PutFour(n, first, 10, 6, 8, 1, 3, 4, 7, 2, 3); n := PutFour(n, first, 10, 6, 7, 3, 4, 5, 6, 4, 5);
  }

  lemma Link10(w: Wires)
    ensures ApplyW(Network10(), w) == Run10(w)
  {
    Table0(); Table1(); Table2(); Table3(); Table4();
    var n := Four(Done, w, 4, 9, 3, 8, 2, 7, 1, 6); n := Four(n, w, 0, 5, 1, 4, 6, 9, 0, 3);
    n := Four(n, w, 5, 8, 0, 2, 3, 6, 7, 9); n := Four(n, w, 0, 1, 2, 4, 5, 7, 8, 9);
    n := Four(n, w, 1, 2, 4, 6, 7, 8, 3, 5); n := Four(n, w, 2, 5, 6, 8, 1, 3, 4, 7);
    n := Four(n, w, 2, 3, 6, 7, 3, 4, 5, 6); n := One(n, w, 4, 5);
  }

  lemma Sorts10Chain(w: Wires)
    ensures var v := Run10(w);
      && Le(v.w0, v.w1) && Le(v.w1, v.w2) && Le(v.w2, v.w3) && Le(v.w3, v.w4) && Le(v.w4, v.w5) && Le(v.w5, v.w6)
      && Le(v.w6, v.w7) && Le(v.w7, v.w8) && Le(v.w8, v.w9)
  {
  }

  lemma Sorts10()
    ensures SortsWires(Network10(), 10)
  {
    forall w ensures SortedW(ApplyW(Network10(), w), 10) {
      Link10(w);
      Sorts10Chain(w);
    }
  }

  // ---------- 11 elements ----------

  function Network11(): Network {
    Done.X(0, 1).X(2, 3).X(4, 5).X(6, 7).X(8, 9).X(1, 3).X(5, 7).X(0, 2).X(4, 6).X(8, 10).X(1, 2).X(5, 6).X(9, 10)
        .X(0, 4).X(3, 7).X(1, 5).X(6, 10).X(4, 8).X(5, 9).X(2, 6).X(0, 4).X(3, 8).X(1, 5).X(6, 10).X(2, 3).X(8, 9)
        .X(1, 4).X(7, 10).X(3, 5).X(6, 8).X(2, 4).X(7, 9).X(5, 6).X(3, 4).X(7, 8)
  }

  function Run11(w: Wires): Wires {
    w.X0_1().X2_3().X4_5().X6_7().X8_9().X1_3().X5_7().X0_2().X4_6().X8_10().X1_2().X5_6().X9_10().X0_4().X3_7()
     .X1_5().X6_10().X4_8().X5_9().X2_6().X0_4().X3_8().X1_5().X6_10().X2_3().X8_9().X1_4().X7_10().X3_5().X6_8()
     .X2_4().X7_9().X5_6().X3_4().X7_8()
  }

  lemma Shape11() returns (first: Network)
    ensures Shape(Network11(), first, 11)
    ensures first == Done.X(0, 1).X(2, 3).X(4, 5).X(6, 7).X(8, 9).X(1, 3)
  {
    var n := PutFour(Done, Done, 11, 0, 1, 2, 3, 4, 5, 6, 7); n := Put(n, Done, 11, 8, 9);
    n := Put(n, Done, 11, 1, 3); first := n; n := PutFour(n, first, 11, 5, 7, 0, 2, 4, 6, 8, 10);
    n := PutFour(n, first, 11, 1, 2, 5, 6, 9, 10, 0, 4); n := PutFour(n, first, 11, 3, 7, 1, 5, 6, 10, 4, 8);
    n := PutFour(n, first, 11, 5, 9, 2, 6, 0, 4, 3, 8); n := PutFour(n, first, 11, 1, 5, 6, 10, 2, 3, 8, 9);
    n := PutFour(n, first, 11, 1, 4, 7, 10, 3, 5, 6, 8); n := PutFour(n, first, 11, 2, 4, 7, 9, 5, 6, 3, 4);
    n := Put(n, first, 11, 7, 8);
  }

  lemma Link11(w: Wires)
    ensures ApplyW(Network11(), w) == Run11(w)
  {
    Table0(); Table1(); Table2(); Table3(); Table4();
    var n := Four(Done, w, 0, 1, 2, 3, 4, 5, 6, 7); n := Four(n, w, 8, 9, 1, 3, 5, 7, 0, 2);
    n := Four(n, w, 4, 6, 8, 10, 1, 2, 5, 6); n := Four(n, w, 9, 10, 0, 4, 3, 7, 1, 5);
    n := Four(n, w, 6, 10, 4, 8, 5, 9, 2, 6); n := Four(n, w, 0, 4, 3, 8, 1, 5, 6, 10);
    n := Four(n, w, 2, 3, 8, 9, 1, 4, 7, 10); n := Four(n, w, 3, 5, 6, 8, 2, 4, 7, 9); n := One(n, w, 5, 6);
    n := One(n, w, 3, 4); n := One(n, w, 7, 8);
  }

  lemma Sorts11Chain(w: Wires)
    ensures var v := Run11(w);
      && Le(v.w0, v.w1) && Le(v.w1, v.w2) && Le(v.w2, v.w3) && Le(v.w3, v.w4) && Le(v.w4, v.w5) && Le(v.w5, v.w6)
      && Le(v.w6, v.w7) && Le(v.w7, v.w8) && Le(v.w8, v.w9) && Le(v.w9, v.w10)
  {
  }

  lemma Sorts11()
    ensures SortsWires(Network11(), 11)
  {
    forall w ensures SortedW(ApplyW(Network11(), w), 11) {
      Link11(w);
      Sorts11Chain(w);
    }
  }

  // ---------- 12 elements ----------

  function Network12(): Network {
    Done.X(0, 1).X(2, 3).X(4, 5).X(6, 7).X(8, 9).X(10, 11).X(1, 3).X(5, 7).X(9, 11).X(0, 2).X(4, 6).X(8, 10).X(1, 2)
        .X(5, 6).X(9, 10).X(0, 4).X(7, 11).X(1, 5).X(6, 10).X(3, 7).X(4, 8).X(5, 9).X(2, 6).X(0, 4).X(7, 11).X(3, 8)
        .X(1, 5).X(6, 10).X(2, 3).X(8, 9).X(1, 4).X(7, 10).X(3, 5).X(6, 8).X(2, 4).X(7, 9).X(5, 6).X(3, 4).X(7, 8)
  }

  function Run12(w: Wires): Wires {
    w.X0_1().X2_3().X4_5().X6_7().X8_9().X10_11().X1_3().X5_7().X9_11().X0_2().X4_6().X8_10().X1_2().X5_6().X9_10()
     .X0_4().X7_11().X1_5().X6_10().X3_7().X4_8().X5_9().X2_6().X0_4().X7_11().X3_8().X1_5().X6_10().X2_3().X8_9()
     .X1_4().X7_10().X3_5().X6_8().X2_4().X7_9().X5_6().X3_4().X7_8()
  }

  lemma Shape12() returns (first: Network)
    ensures Shape(Network12(), first, 12)
    ensures first == Done.X(0, 1).X(2, 3).X(4, 5).X(6, 7).X(8, 9).X(10, 11).X(1, 3)
  {
    var n := PutFour(Done, Done, 12, 0, 1, 2, 3, 4, 5, 6, 7); n := Put(n, Done, 12, 8, 9);
    n := Put(n, Done, 12, 10, 11); n := Put(n, Done, 12, 1, 3); first := n;
    n := PutFour(n, first, 12, 5, 7, 9, 11, 0, 2, 4, 6); n := PutFour(n, first, 12, 8, 10, 1, 2, 5, 6, 9, 10);
    n := PutFour(n, first, 12, 0, 4, 7, 11, 1, 5, 6, 10); n := PutFour(n, first, 12, 3, 7, 4, 8, 5, 9, 2, 6);
    n := PutFour(n, first, 12, 0, 4, 7, 11, 3, 8, 1, 5); n := PutFour(n, first, 12, 6, 10, 2, 3, 8, 9, 1, 4);
    n := PutFour(n, first, 12, 7, 10, 3, 5, 6, 8, 2, 4); n := PutFour(n, first, 12, 7, 9, 5, 6, 3, 4, 7, 8);
  }

  lemma Link12(w: Wires)
    ensures ApplyW(Network12(), w) == Run12(w)
  {
    Table0(); Table1(); Table2(); Table3(); Table4(); Table5();
    var n := Four(Done, w, 0, 1, 2, 3, 4, 5, 6, 7); n := Four(n, w, 8, 9, 10, 11, 1, 3, 5, 7);
    n := Four(n, w, 9, 11, 0, 2, 4, 6, 8, 10); n := Four(n, w, 1, 2, 5, 6, 9, 10, 0, 4);
    n := Four(n, w, 7, 11, 1, 5, 6, 10, 3, 7); n := Four(n, w, 4, 8, 5, 9, 2, 6, 0, 4);
    n := Four(n, w, 7, 11, 3, 8, 1, 5, 6, 10); n := Four(n, w, 2, 3, 8, 9, 1, 4, 7, 10);
    n := Four(n, w, 3, 5, 6, 8, 2, 4, 7, 9); n := One(n, w, 5, 6); n := One(n, w, 3, 4); n := One(n, w, 7, 8);
  }

  lemma Sorts12Chain(w: Wires)
    ensures var v := Run12(w);
      && Le(v.w0, v.w1) && Le(v.w1, v.w2) && Le(v.w2, v.w3) && Le(v.w3, v.w4) && Le(v.w4, v.w5) && Le(v.w5, v.w6)
      && Le(v.w6, v.w7) && Le(v.w7, v.w8) && Le(v.w8, v.w9) && Le(v.w9, v.w10) && Le(v.w10, v.w11)
  {
  }

  lemma Sorts12()
    ensures SortsWires(Network12(), 12)
  {
    forall w ensures SortedW(ApplyW(Network12(), w), 12) {
      Link12(w);
      Sorts12Chain(w);
    }
  }

  // ---------- 13 elements ----------

  function Network13(): Network {
    Done.X(1, 7).X(9, 11).X(3, 4).X(5, 8).X(0, 12).X(2, 6).X(0, 1).X(2, 3).X(4, 6).X(8, 11).X(7, 12).X(5, 9).X(0, 2)
        .X(3, 7).X(10, 11).X(1, 4).X(6, 12).X(7, 8).X(11, 12).X(4, 9).X(6, 10).X(3, 4).X(5, 6).X(8, 9).X(10, 11)
        .X(1, 7).X(2, 6).X(9, 11).X(1, 3).X(4, 7).X(8, 10).X(0, 5).X(2, 5).X(6, 8).X(9, 10).X(1, 2).X(3, 5).X(7, 8)
        .X(4, 6).X(2, 3).X(4, 5).X(6, 7).X(8, 9).X(3, 4).X(5, 6)
  }

  function Run13(w: Wires): Wires {
    w.X1_7().X9_11().X3_4().X5_8().X0_12().X2_6().X0_1().X2_3().X4_6().X8_11().X7_12().X5_9().X0_2().X3_7().X10_11()
     .X1_4().X6_12().X7_8().X11_12().X4_9().X6_10().X3_4().X5_6().X8_9().X10_11().X1_7().X2_6().X9_11().X1_3()
     .X4_7().X8_10().X0_5().X2_5().X6_8().X9_10().X1_2().X3_5().X7_8().X4_6().X2_3().X4_5().X6_7().X8_9().X3_4()
     .X5_6()
  }

  lemma Shape13() returns (first: Network)
    ensures Shape(Network13(), first, 13)
    ensures first == Done.X(1, 7)
  {
    var n := Put(Done, Done, 13, 1, 7); first := n; n := PutFour(n, first, 13, 9, 11, 3, 4, 5, 8, 0, 12);
    n := PutFour(n, first, 13, 2, 6, 0, 1, 2, 3, 4, 6); n := PutFour(n, first, 13, 8, 11, 7, 12, 5, 9, 0, 2);
    n := PutFour(n, first, 13, 3, 7, 10, 11, 1, 4, 6, 12); n := PutFour(n, first, 13, 7, 8, 11, 12, 4, 9, 6, 10);
    n := PutFour(n, first, 13, 3, 4, 5, 6, 8, 9, 10, 11); n := PutFour(n, first, 13, 1, 7, 2, 6, 9, 11, 1, 3);
    n := PutFour(n, first, 13, 4, 7, 8, 10, 0, 5, 2, 5); n := PutFour(n, first, 13, 6, 8, 9, 10, 1, 2, 3, 5);
    n := PutFour(n, first, 13, 7, 8, 4, 6, 2, 3, 4, 5); n := PutFour(n, first, 13, 6, 7, 8, 9, 3, 4, 5, 6);
  }

  lemma Link13(w: Wires)
    ensures ApplyW(Network13(), w) == Run13(w)
  {
    Table0(); Table1(); Table2(); Table3(); Table4(); Table5();
    var n := Four(Done, w, 1, 7, 9, 11, 3, 4, 5, 8); n := Four(n, w, 0, 12, 2, 6, 0, 1, 2, 3);
    n := Four(n, w, 4, 6, 8, 11, 7, 12, 5, 9); n := Four(n, w, 0, 2, 3, 7, 10, 11, 1, 4);
    n := Four(n, w, 6, 12, 7, 8, 11, 12, 4, 9); n := Four(n, w, 6, 10, 3, 4, 5, 6, 8, 9);
    n := Four(n, w, 10, 11, 1, 7, 2, 6, 9, 11); n := Four(n, w, 1, 3, 4, 7, 8, 10, 0, 5);
    n := Four(n, w, 2, 5, 6, 8, 9, 10, 1, 2); n := Four(n, w, 3, 5, 7, 8, 4, 6, 2, 3);
    n := Four(n, w, 4, 5, 6, 7, 8, 9, 3, 4); n := One(n, w, 5, 6);
  }

  lemma Sorts13Low(w: Wires)
    ensures var v := Run13(w);
      && Le(v.w0, v.w1) && Le(v.w1, v.w2) && Le(v.w2, v.w3) && Le(v.w3, v.w4) && Le(v.w4, v.w5) && Le(v.w5, v.w6)
      && Le(v.w6, v.w7) && Le(v.w7, v.w8)
  {
  }

  lemma Sorts13High(w: Wires)
    ensures var v := Run13(w);
      && Le(v.w8, v.w9) && Le(v.w9, v.w10) && Le(v.w10, v.w11) && Le(v.w11, v.w12)
  {
  }

  lemma Sorts13()
    ensures SortsWires(Network13(), 13)
  {
    forall w ensures SortedW(ApplyW(Network13(), w), 13) {
      Link13(w);
      Sorts13Low(w);
      Sorts13High(w);
    }
  }

  // ---------- 14 elements ----------

  function Network14(): Network {
    Done.X(0, 1).X(2, 3).X(4, 5).X(6, 7).X(8, 9).X(10, 11).X(12, 13).X(0, 2).X(4, 6).X(8, 10).X(1, 3).X(5, 7)
        .X(9, 11).X(0, 4).X(8, 12).X(1, 5).X(9, 13).X(2, 6).X(3, 7).X(0, 8).X(1, 9).X(2, 10).X(3, 11).X(4, 12)
        .X(5, 13).X(5, 10).X(6, 9).X(3, 12).X(7, 11).X(1, 2).X(4, 8).X(1, 4).X(7, 13).X(2, 8).X(5, 6).X(9, 10)
        .X(2, 4).X(11, 13).X(3, 8).X(7, 12).X(6, 8).X(10, 12).X(3, 5).X(7, 9).X(3, 4).X(5, 6).X(7, 8).X(9, 10)
        .X(11, 12).X(6, 7).X(8, 9)
  }

  function Run14(w: Wires): Wires {
    w.X0_1().X2_3().X4_5().X6_7().X8_9().X10_11().X12_13().X0_2().X4_6().X8_10().X1_3().X5_7().X9_11().X0_4()
     .X8_12().X1_5().X9_13().X2_6().X3_7().X0_8().X1_9().X2_10().X3_11().X4_12().X5_13().X5_10().X6_9().X3_12()
     .X7_11().X1_2().X4_8().X1_4().X7_13().X2_8().X5_6().X9_10().X2_4().X11_13().X3_8().X7_12().X6_8().X10_12()
     .X3_5().X7_9().X3_4().X5_6().X7_8().X9_10().X11_12().X6_7().X8_9()
  }

  lemma Shape14() returns (first: Network)
    ensures Shape(Network14(), first, 14)
    ensures first == Done.X(0, 1).X(2, 3).X(4, 5).X(6, 7).X(8, 9).X(10, 11).X(12, 13).X(0, 2)
  {
    var n := PutFour(Done, Done, 14, 0, 1, 2, 3, 4, 5, 6, 7); n := PutFour(n, Done, 14, 8, 9, 10, 11, 12, 13, 0, 2);
    first := n; n := PutFour(n, first, 14, 4, 6, 8, 10, 1, 3, 5, 7);
    n := PutFour(n, first, 14, 9, 11, 0, 4, 8, 12, 1, 5); n := PutFour(n, first, 14, 9, 13, 2, 6, 3, 7, 0, 8);
    n := PutFour(n, first, 14, 1, 9, 2, 10, 3, 11, 4, 12); n := PutFour(n, first, 14, 5, 13, 5, 10, 6, 9, 3, 12);
    n := PutFour(n, first, 14, 7, 11, 1, 2, 4, 8, 1, 4); n := PutFour(n, first, 14, 7, 13, 2, 8, 5, 6, 9, 10);
    n := PutFour(n, first, 14, 2, 4, 11, 13, 3, 8, 7, 12); n := PutFour(n, first, 14, 6, 8, 10, 12, 3, 5, 7, 9);
    n := PutFour(n, first, 14, 3, 4, 5, 6, 7, 8, 9, 10); n := Put(n, first, 14, 11, 12);
    n := Put(n, first, 14, 6, 7); n := Put(n, first, 14, 8, 9);
  }

  lemma Link14(w: Wires)
    ensures ApplyW(Network14(), w) == Run14(w)
  {
    Table0(); Table1(); Table2(); Table3(); Table4(); Table5();
    var n := Four(Done, w, 0, 1, 2, 3, 4, 5, 6, 7); n := Four(n, w, 8, 9, 10, 11, 12, 13, 0, 2);
    n := Four(n, w, 4, 6, 8, 10, 1, 3, 5, 7); n := Four(n, w, 9, 11, 0, 4, 8, 12, 1, 5);
    n := Four(n, w, 9, 13, 2, 6, 3, 7, 0, 8); n := Four(n, w, 1, 9, 2, 10, 3, 11, 4, 12);
    n := Four(n, w, 5, 13, 5, 10, 6, 9, 3, 12); n := Four(n, w, 7, 11, 1, 2, 4, 8, 1, 4);
    n := Four(n, w, 7, 13, 2, 8, 5, 6, 9, 10); n := Four(n, w, 2, 4, 11, 13, 3, 8, 7, 12);
    n := Four(n, w, 6, 8, 10, 12, 3, 5, 7, 9); n := Four(n, w, 3, 4, 5, 6, 7, 8, 9, 10); n := One(n, w, 11, 12);
    n := One(n, w, 6, 7); n := One(n, w, 8, 9);
  }

  lemma Sorts14Low(w: Wires)
    ensures var v := Run14(w);
      && Le(v.w0, v.w1) && Le(v.w1, v.w2) && Le(v.w2, v.w3) && Le(v.w3, v.w4) && Le(v.w4, v.w5) && Le(v.w5, v.w6)
      && Le(v.w6, v.w7) && Le(v.w7, v.w8)
  {
  }

  lemma Sorts14High(w: Wires)
    ensures var v := Run14(w);
      && Le(v.w8, v.w9) && Le(v.w9, v.w10) && Le(v.w10, v.w11) && Le(v.w11, v.w12) && Le(v.w12, v.w13)
  {
  }

  lemma Sorts14()
    ensures SortsWires(Network14(), 14)
  {
    forall w ensures SortedW(ApplyW(Network14(), w), 14) {
      Link14(w);
      Sorts14Low(w);
      Sorts14High(w);
    }
  }

  // ---------- 15 elements ----------

  function Network15(): Network {
    Done.X(0, 1).X(2, 3).X(4, 5).X(6, 7).X(8, 9).X(10, 11).X(12, 13).X(0, 2).X(4, 6).X(8, 10).X(12, 14).X(1, 3)
        .X(5, 7).X(9, 11).X(0, 4).X(8, 12).X(1, 5).X(9, 13).X(2, 6).X(10, 14).X(3, 7).X(0, 8).X(1, 9).X(2, 10)
        .X(3, 11).X(4, 12).X(5, 13).X(6, 14).X(5, 10).X(6, 9).X(3, 12).X(13, 14).X(7, 11).X(1, 2).X(4, 8).X(1, 4)
        .X(7, 13).X(2, 8).X(11, 14).X(5, 6).X(9, 10).X(2, 4).X(11, 13).X(3, 8).X(7, 12).X(6, 8).X(10, 12).X(3, 5)
        .X(7, 9).X(3, 4).X(5, 6).X(7, 8).X(9, 10).X(11, 12).X(6, 7).X(8, 9)
  }

  function Run15(w: Wires): Wires {
    w.X0_1().X2_3().X4_5().X6_7().X8_9().X10_11().X12_13().X0_2().X4_6().X8_10().X12_14().X1_3().X5_7().X9_11()
     .X0_4().X8_12().X1_5().X9_13().X2_6().X10_14().X3_7().X0_8().X1_9().X2_10().X3_11().X4_12().X5_13().X6_14()
     .X5_10().X6_9().X3_12().X13_14().X7_11().X1_2().X4_8().X1_4().X7_13().X2_8().X11_14().X5_6().X9_10().X2_4()
     .X11_13().X3_8().X7_12().X6_8().X10_12().X3_5().X7_9().X3_4().X5_6().X7_8().X9_10().X11_12().X6_7().X8_9()
  }

  lemma Shape15() returns (first: Network)
    ensures Shape(Network15(), first, 15)
    ensures first == Done.X(0, 1).X(2, 3).X(4, 5).X(6, 7).X(8, 9).X(10, 11).X(12, 13).X(0, 2)
  {
    var n := PutFour(Done, Done, 15, 0, 1, 2, 3, 4, 5, 6, 7); n := PutFour(n, Done, 15, 8, 9, 10, 11, 12, 13, 0, 2);
    first := n; n := PutFour(n, first, 15, 4, 6, 8, 10, 12, 14, 1, 3);
    n := PutFour(n, first, 15, 5, 7, 9, 11, 0, 4, 8, 12); n := PutFour(n, first, 15, 1, 5, 9, 13, 2, 6, 10, 14);
    n := PutFour(n, first, 15, 3, 7, 0, 8, 1, 9, 2, 10); n := PutFour(n, first, 15, 3, 11, 4, 12, 5, 13, 6, 14);
    n := PutFour(n, first, 15, 5, 10, 6, 9, 3, 12, 13, 14); n := PutFour(n, first, 15, 7, 11, 1, 2, 4, 8, 1, 4);
    n := PutFour(n, first, 15, 7, 13, 2, 8, 11, 14, 5, 6); n := PutFour(n, first, 15, 9, 10, 2, 4, 11, 13, 3, 8);
    n := PutFour(n, first, 15, 7, 12, 6, 8, 10, 12, 3, 5); n := PutFour(n, first, 15, 7, 9, 3, 4, 5, 6, 7, 8);
    n := PutFour(n, first, 15, 9, 10, 11, 12, 6, 7, 8, 9);
  }

  lemma Link15(w: Wires)
    ensures ApplyW(Network15(), w) == Run15(w)
  {
    Table0(); Table1(); Table2(); Table3(); Table4(); Table5();
    var n := Four(Done, w, 0, 1, 2, 3, 4, 5, 6, 7); n := Four(n, w, 8, 9, 10, 11, 12, 13, 0, 2);
    n := Four(n, w, 4, 6, 8, 10, 12, 14, 1, 3); n := Four(n, w, 5, 7, 9, 11, 0, 4, 8, 12);
    n := Four(n, w, 1, 5, 9, 13, 2, 6, 10, 14); n := Four(n, w, 3, 7, 0, 8, 1, 9, 2, 10);
    n := Four(n, w, 3, 11, 4, 12, 5, 13, 6, 14); n := Four(n, w, 5, 10, 6, 9, 3, 12, 13, 14);
    n := Four(n, w, 7, 11, 1, 2, 4, 8, 1, 4); n := Four(n, w, 7, 13, 2, 8, 11, 14, 5, 6);
    n := Four(n, w, 9, 10, 2, 4, 11, 13, 3, 8); n := Four(n, w, 7, 12, 6, 8, 10, 12, 3, 5);
    n := Four(n, w, 7, 9, 3, 4, 5, 6, 7, 8); n := Four(n, w, 9, 10, 11, 12, 6, 7, 8, 9);
  }

  lemma Sorts15Low(w: Wires)
    ensures var v := Run15(w);
      && Le(v.w0, v.w1) && Le(v.w1, v.w2) && Le(v.w2, v.w3) && Le(v.w3, v.w4) && Le(v.w4, v.w5) && Le(v.w5, v.w6)
      && Le(v.w6, v.w7) && Le(v.w7, v.w8)
  {
  }

  lemma Sorts15High(w: Wires)
    ensures var v := Run15(w);
      && Le(v.w8, v.w9) && Le(v.w9, v.w10) && Le(v.w10, v.w11) && Le(v.w11, v.w12) && Le(v.w12, v.w13)
      && Le(v.w13, v.w14)
  {
  }

  lemma Sorts15()
    ensures SortsWires(Network15(), 15)
  {
    forall w ensures SortedW(ApplyW(Network15(), w), 15) {
      Link15(w);
      Sorts15Low(w);
      Sorts15High(w);
    }
  }

  // ---------- 16 elements ----------

  function Network16(): Network {
    Done.X(0, 1).X(2, 3).X(4, 5).X(6, 7).X(8, 9).X(10, 11).X(12, 13).X(14, 15).X(0, 2).X(4, 6).X(8, 10).X(12, 14)
        .X(1, 3).X(5, 7).X(9, 11).X(13, 15).X(0, 4).X(8, 12).X(1, 5).X(9, 13).X(2, 6).X(10, 14).X(3, 7).X(11, 15)
        .X(0, 8).X(1, 9).X(2, 10).X(3, 11).X(4, 12).X(5, 13).X(6, 14).X(7, 15).X(5, 10).X(6, 9).X(3, 12).X(13, 14)
        .X(7, 11).X(1, 2).X(4, 8).X(1, 4).X(7, 13).X(2, 8).X(11, 14).X(5, 6).X(9, 10).X(2, 4).X(11, 13).X(3, 8)
        .X(7, 12).X(6, 8).X(10, 12).X(3, 5).X(7, 9).X(3, 4).X(5, 6).X(7, 8).X(9, 10).X(11, 12).X(6, 7).X(8, 9)
  }

  function Run16(w: Wires): Wires {
    w.X0_1().X2_3().X4_5().X6_7().X8_9().X10_11().X12_13().X14_15().X0_2().X4_6().X8_10().X12_14().X1_3().X5_7()
     .X9_11().X13_15().X0_4().X8_12().X1_5().X9_13().X2_6().X10_14().X3_7().X11_15().X0_8().X1_9().X2_10().X3_11()
     .X4_12().X5_13().X6_14().X7_15().X5_10().X6_9().X3_12().X13_14().X7_11().X1_2().X4_8().X1_4().X7_13().X2_8()
     .X11_14().X5_6().X9_10().X2_4().X11_13().X3_8().X7_12().X6_8().X10_12().X3_5().X7_9().X3_4().X5_6().X7_8()
     .X9_10().X11_12().X6_7().X8_9()
  }

  lemma Shape16() returns (first: Network)
    ensures Shape(Network16(), first, 16)
    ensures first == Done.X(0, 1).X(2, 3).X(4, 5).X(6, 7).X(8, 9).X(10, 11).X(12, 13).X(14, 15).X(0, 2)
  {
    var n := PutFour(Done, Done, 16, 0, 1, 2, 3, 4, 5, 6, 7);
    n := PutFour(n, Done, 16, 8, 9, 10, 11, 12, 13, 14, 15); n := Put(n, Done, 16, 0, 2); first := n;
    n := PutFour(n, first, 16, 4, 6, 8, 10, 12, 14, 1, 3); n := PutFour(n, first, 16, 5, 7, 9, 11, 13, 15, 0, 4);
    n := PutFour(n, first, 16, 8, 12, 1, 5, 9, 13, 2, 6); n := PutFour(n, first, 16, 10, 14, 3, 7, 11, 15, 0, 8);
    n := PutFour(n, first, 16, 1, 9, 2, 10, 3, 11, 4, 12); n := PutFour(n, first, 16, 5, 13, 6, 14, 7, 15, 5, 10);
    n := PutFour(n, first, 16, 6, 9, 3, 12, 13, 14, 7, 11); n := PutFour(n, first, 16, 1, 2, 4, 8, 1, 4, 7, 13);
    n := PutFour(n, first, 16, 2, 8, 11, 14, 5, 6, 9, 10); n := PutFour(n, first, 16, 2, 4, 11, 13, 3, 8, 7, 12);
    n := PutFour(n, first, 16, 6, 8, 10, 12, 3, 5, 7, 9); n := PutFour(n, first, 16, 3, 4, 5, 6, 7, 8, 9, 10);
    n := Put(n, first, 16, 11, 12); n := Put(n, first, 16, 6, 7); n := Put(n, first, 16, 8, 9);
  }

  lemma Link16(w: Wires)
    ensures ApplyW(Network16(), w) == Run16(w)
  {
    Table0(); Table1(); Table2(); Table3(); Table4(); Table5();
    var n := Four(Done, w, 0, 1, 2, 3, 4, 5, 6, 7); n := Four(n, w, 8, 9, 10, 11, 12, 13, 14, 15);
    n := Four(n, w, 0, 2, 4, 6, 8, 10, 12, 14); n := Four(n, w, 1, 3, 5, 7, 9, 11, 13, 15);
    n := Four(n, w, 0, 4, 8, 12, 1, 5, 9, 13); n := Four(n, w, 2, 6, 10, 14, 3, 7, 11, 15);
    n := Four(n, w, 0, 8, 1, 9, 2, 10, 3, 11); n := Four(n, w, 4, 12, 5, 13, 6, 14, 7, 15);
    n := Four(n, w, 5, 10, 6, 9, 3, 12, 13, 14); n := Four(n, w, 7, 11, 1, 2, 4, 8, 1, 4);
    n := Four(n, w, 7, 13, 2, 8, 11, 14, 5, 6); n := Four(n, w, 9, 10, 2, 4, 11, 13, 3, 8);
    n := Four(n, w, 7, 12, 6, 8, 10, 12, 3, 5); n := Four(n, w, 7, 9, 3, 4, 5, 6, 7, 8);
    n := Four(n, w, 9, 10, 11, 12, 6, 7, 8, 9);
  }

  lemma Sorts16Low(w: Wires)
    ensures var v := Run16(w);
      && Le(v.w0, v.w1) && Le(v.w1, v.w2) && Le(v.w2, v.w3) && Le(v.w3, v.w4) && Le(v.w4, v.w5) && Le(v.w5, v.w6)
      && Le(v.w6, v.w7) && Le(v.w7, v.w8)
  {
  }

  lemma Sorts16High(w: Wires)
    ensures var v := Run16(w);
      && Le(v.w8, v.w9) && Le(v.w9, v.w10) && Le(v.w10, v.w11) && Le(v.w11, v.w12) && Le(v.w12, v.w13)
      && Le(v.w13, v.w14) && Le(v.w14, v.w15)
  {
  }

  lemma Sorts16()
    ensures SortsWires(Network16(), 16)
  {
    forall w ensures SortedW(ApplyW(Network16(), w), 16) {
      Link16(w);
      Sorts16Low(w);
      Sorts16High(w);
    }
  }
}
