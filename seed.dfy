/** The eight experiment records the in-memory store is seeded with, in seed order. */
module Seed {
  import opened Common
  import opened Schema

  const BubbleSortExperiment := Experiment(
    1,
    "Bubble Sort",
    "The aim of this experiment is to understand the Bubble Sort algorithm, its time and space complexity. The experiment features interactive demonstrations, simulations, and practice exercises.",
    "Computer Science and Engineering",
    "IIITH",
    "1 hour",
    [ "Given an unsorted array of numbers, generate a sorted array of numbers by applying Bubble Sort",
      "Optimise the Bubble Sort algorithm to achieve better performance",
      "Demonstrate knowledge of time complexity of Bubble Sort by counting the number of operations involved in each iteration" ],
    "https://cdn.vlabs.ac.in/exp-images/exp-bubble-sort-iiith/experiment-image.png",
    Some(4),
    Some("https://youtu.be/1WHzXwp5l7g"),
    Some("To understand the Bubble Sort algorithm, its implementation, and analysis of its time complexity."),
    Some("Bubble Sort is one of the simplest sorting algorithms. The algorithm gets its name from the way smaller elements 'bubble' to the top of the list. It repeatedly steps through the input list element by element, comparing the current element with the one after it, swapping their values if needed."),
    Some("Before starting this experiment, we should have the following conceptual clarity:\n1. Arrays in programming\n2. Basic programming constructs (loops, conditionals)\n3. Time complexity basics"),
    [ Question(
        1,
        "Which of the following is an array?",
        [ "a: [1, 4, 3, 10]",
          "b: ['A', 3, 0, 'Hello world']",
          "c: ['Test', False, X, 'hi']",
          "d: [True, False, 6, 2.5]" ],
        0,
        Beginner,
        Some("Option a is a valid array containing numbers in a sequence.")),
      Question(
        2,
        "Which of the following is an array sorted in ascending order?",
        [ "a: 1, 4, 5, -10",
          "b: -10, -13, 15, 100",
          "c: -1000, 0, 14, 27",
          "d: 100, 50, 10, 0" ],
        2,
        Beginner,
        Some("Option c shows numbers arranged in ascending order from smallest to largest.")) ],
    [ Question(
        1,
        "How many iterations of the outer and inner loops will it take to sort the following array using the optimized algorithm?\nA = [-4, -9, -1, 8, -9, 4]",
        [ "a: Outer = 4, Inner = 14",
          "b: Outer = 3, Inner = 12",
          "c: Outer = 5, Inner = 25",
          "d: Outer = 4, Inner = 20" ],
        0,
        Advanced,
        Some("The optimized bubble sort will require 4 outer iterations and 14 inner iterations to sort this array.")) ],
    Some(Complexity(
      TimeComplexity("O(n)", "O(n\U{00B2})", "O(n\U{00B2})"),
      "O(1)",
      Some("T(n) = T(n-1) + O(n)"),
      "Bubble sort has quadratic time complexity in average and worst cases. This makes it inefficient for large datasets. However, it has the advantage of being simple to understand and implement, and it requires only O(1) extra space.")))

  const StacksAndQueuesExperiment := Experiment(
    2,
    "Stacks and Queues",
    "In this experiment we will gain a basic understanding of Stacks and Queues as an abstract data type and understand applications of Stacks and Queues",
    "Computer Science and Engineering",
    "IIITH",
    "45 minutes",
    [ "Understand Stack and Queue ADT",
      "Implement basic operations",
      "Explore real-world applications" ],
    "https://cdn.vlabs.ac.in/exp-images/exp-stacks-queues-iiith/experiment-image.png",
    Some(3),
    None, None, None, None,
    [], [],
    Some(Complexity(
      TimeComplexity("O(1)", "O(1)", "O(1)"),
      "O(n)",
      None,
      "Stack and Queue operations have constant time complexity.")))

  const MergeSortExperiment := Experiment(
    3,
    "Merge Sort",
    "The aim of this experiment is to understand the Merge Sort algorithm, its time and space complexity, and how it compares against other sorting algorithms.",
    "Computer Science and Engineering",
    "IIITH",
    "1 hour",
    [ "Understand divide-and-conquer strategy",
      "Implement Merge Sort algorithm",
      "Analyze time complexity" ],
    "https://cdn.vlabs.ac.in/exp-images/exp-merge-sort-iiith/experiment-image.png",
    Some(4),
    None, None, None, None,
    [], [],
    None)

  const ShiftCipherExperiment := Experiment(
    4,
    "Breaking the Shift Cipher",
    "This experiment focuses on breaking the shift cipher, a historical encryption scheme with a small key space.",
    "Computer Science and Engineering",
    "IIITH",
    "30 minutes",
    [ "Understand shift cipher mechanics",
      "Learn cryptanalysis techniques",
      "Practice decryption methods" ],
    "https://cdn.vlabs.ac.in/exp-images/exp-shift-cipher-iiith/experiment-image.png",
    Some(3),
    None, None, None, None,
    [], [],
    None)

  const WordAnalysisExperiment := Experiment(
    5,
    "Word Analysis",
    "Experiment analyzes word morphology, identifying roots and affixes, highlighting language variations",
    "Computer Science and Engineering",
    "IIITH",
    "45 minutes",
    [ "Analyze word structure",
      "Identify morphological patterns",
      "Study language variations" ],
    "https://cdn.vlabs.ac.in/exp-images/exp-word-analysis-iiith/experiment-image.png",
    Some(4),
    None, None, None, None,
    [], [],
    None)

  const LinkedListsExperiment := Experiment(
    6,
    "Linked Lists",
    "In this experiment we will learn the basics of the linked list",
    "Computer Science and Engineering",
    "IIITH",
    "1 hour",
    [ "Understand linked list structure",
      "Implement basic operations",
      "Analyze performance characteristics" ],
    "https://cdn.vlabs.ac.in/exp-images/exp-linked-lists-iiith/experiment-image.png",
    Some(4),
    None, None, None, None,
    [], [],
    None)

  const DepthFirstSearchExperiment := Experiment(
    7,
    "Depth First Search",
    "The aim of this experiment is to understand the basics of graphs and their representations and to understand the working of Depth First Traversal Algorithm for searching nodes.",
    "Computer Science and Engineering",
    "IIITH",
    "1 hour",
    [ "Learn graph representations",
      "Implement DFS algorithm",
      "Analyze traversal patterns" ],
    "https://cdn.vlabs.ac.in/exp-images/exp-dfs-iiith/experiment-image.png",
    Some(4),
    None, None, None, None,
    [], [],
    None)

  const DesExperiment := Experiment(
    8,
    "Symmetric Key Encryption Standards (DES)",
    "Design the triple DES (3-DES) cryptosystem using an existing implementation of DES. Explore the steps to enhance DES by applying the triple encryption process in this experiment.",
    "Computer Science and Engineering",
    "IIITH",
    "1.5 hours",
    [ "Understand DES algorithm",
      "Implement triple DES",
      "Analyze security improvements" ],
    "https://cdn.vlabs.ac.in/exp-images/exp-des-iiith/experiment-image.png",
    Some(4),
    None, None, None, None,
    [], [],
    None)

  /** The seed list, in the order the store inserts it. */
  const Experiments: seq<Experiment> := [
    BubbleSortExperiment,
    StacksAndQueuesExperiment,
    MergeSortExperiment,
    ShiftCipherExperiment,
    WordAnalysisExperiment,
    LinkedListsExperiment,
    DepthFirstSearchExperiment,
    DesExperiment ]

  /** The seed holds eight records whose ids are 1 to 8 in order. */
  lemma SeedIds()
    ensures |Experiments| == 8
    ensures forall k :: 0 <= k < |Experiments| ==> Experiments[k].id == k + 1
  {
    forall k | 0 <= k < |Experiments| ensures Experiments[k].id == k + 1 {
      if k == 0 {} else if k == 1 {} else if k == 2 {} else if k == 3 {}
      else if k == 4 {} else if k == 5 {} else if k == 6 {} else {}
    }
  }

  /** The seeded titles, in seed order. */
  lemma SeedTitles()
    ensures |Experiments| == 8
    ensures Experiments[0].title == "Bubble Sort" && Experiments[1].title == "Stacks and Queues"
      && Experiments[2].title == "Merge Sort" && Experiments[3].title == "Breaking the Shift Cipher"
      && Experiments[4].title == "Word Analysis" && Experiments[5].title == "Linked Lists"
      && Experiments[6].title == "Depth First Search"
      && Experiments[7].title == "Symmetric Key Encryption Standards (DES)"
  {
  }

  /** The seeded ratings, in seed order. */
  lemma SeedRatings()
    ensures |Experiments| == 8
    ensures Experiments[0].rating == Some(4) && Experiments[1].rating == Some(3)
      && Experiments[2].rating == Some(4) && Experiments[3].rating == Some(3)
      && Experiments[4].rating == Some(4) && Experiments[5].rating == Some(4)
      && Experiments[6].rating == Some(4) && Experiments[7].rating == Some(4)
  {
  }

  /** Every seeded question, in the pre-test and in the post-test of every
      experiment, names one of its own options as the correct answer. */
  lemma SeedQuestionsWellFormed()
    ensures forall k, j :: 0 <= k < |Experiments| && 0 <= j < |Experiments[k].preTest| ==>
      WellFormedQuestion(Experiments[k].preTest[j])
    ensures forall k, j :: 0 <= k < |Experiments| && 0 <= j < |Experiments[k].postTest| ==>
      WellFormedQuestion(Experiments[k].postTest[j])
  {
    forall k | 0 <= k < |Experiments|
      ensures forall j :: 0 <= j < |Experiments[k].preTest| ==> WellFormedQuestion(Experiments[k].preTest[j])
      ensures forall j :: 0 <= j < |Experiments[k].postTest| ==> WellFormedQuestion(Experiments[k].postTest[j])
    {
      if k == 0 {
        forall j | 0 <= j < |Experiments[0].preTest| ensures WellFormedQuestion(Experiments[0].preTest[j]) {
          if j == 0 {} else {}
        }
      }
    }
  }
}
